/** Distributed counting when depth 1 is a leaf: a range counts its whole row, so the result
    is right exactly if every row that starts a match stays whole. */
module LeafRows {
  import opened Counting
  import opened Patterns
  import opened LinkedKeys
  import opened Schedules
  import opened Completions
  import opened ExclusionGroups
  import opened Matcher
  import opened Interpreter
  import opened EdgeRanges
  import opened RowPieces
  import opened Distributor
  import opened DistributedCount
  import opened RestrictGeneration

  // ----- which vertices start a match -----

  /** The only vertices are 0 and 1, and their order is restricted. */
  predicate FirstRestricted(v: Plan) {
    v.n == 2 && v.optimizeNum == 0 && v.pairs != []
  }

  /** A smaller neighbour, or enough neighbours for all the leaves. */
  predicate StartsMatch(g: Graph, v: Plan, x: nat)
    requires x < |g.adj| && v.n >= 2
  {
    if FirstRestricted(v) then |g.adj[x]| > 0 && g.adj[x][0] < x else |g.adj[x]| >= v.n - 1
  }

  /** Every vertex but the first hangs on the first, and on nothing else. */
  lemma {:induction false} LeavesHang(v: Plan, i: nat, j: nat)
    requires v.Valid() && LeafFirst(v) && 1 <= i < v.n && 1 <= j < v.n
    ensures Square(v.adj, v.n) && v.adj[i][0] && v.adj[0][i] && !v.adj[i][j]
  {
    hide Tree, LoopsBuilt, Restrictions, GoodTables;
    var r := Nbrs(v.adj, i);
    assert r[0] < i && v.adj[i][r[0]];
    assert Query(v.n, v.adj, false).Valid();
  }

  lemma {:induction false} NoneEnforced(g: Graph, v: Plan)
    requires g.Valid() && v.Valid() && LeafFirst(v) && !FirstRestricted(v)
    ensures Goal(g, v).r == []
  {
    hide Tree, LoopsBuilt, Connected, Plan.ExclusionFits;
    PlanSizes(v);
    LateLeftOut(v.pairs, v.n - v.optimizeNum);
  }

  lemma {:induction false} LateLeftOut(r: seq<Pair>, limit: nat)
    requires forall k :: 0 <= k < |r| ==> r[k].1 >= limit
    ensures Enforced(r, limit) == []
  {
    if |r| > 0 {
      LateLeftOut(r[..|r| - 1], limit);
    }
  }

  lemma {:induction false} OneEnforced(g: Graph, v: Plan)
    requires g.Valid() && v.Valid() && FirstRestricted(v)
    ensures (0, 1) in Goal(g, v).r && forall k :: 0 <= k < |Goal(g, v).r| ==> Goal(g, v).r[k] == (0, 1)
  {
    hide Tree, LoopsBuilt, Connected, Plan.ExclusionFits, Graph.Valid, Linked;
    var r := Goal(g, v).r;
    assert v.pairs[0] == (0, 1) && v.pairs[0] in v.pairs;
    forall k | 0 <= k < |r| ensures r[k] == (0, 1) {
      assert r[k] in r;
      var m :| 0 <= m < |v.pairs| && v.pairs[m] == r[k];
    }
  }

  /** With one restricted edge the second vertex is a smaller neighbour. */
  lemma {:induction false} SmallerNeighbour(g: Graph, v: Plan, x: nat, y: nat)
    requires g.Valid() && v.Valid() && FirstRestricted(v) && x < |g.adj|
    ensures Next(Goal(g, v), [x], y) <==> y in g.adj[x] && y < x
  {
    hide Plan.Valid;
    OneEnforced(g, v);
    LeavesHang(v, 1, 1);
    assert g.Edge(x, y) <==> y in g.adj[x];
    if y in g.adj[x] {
      var k :| 0 <= k < |g.adj[x]| && g.adj[x][k] == y;
    }
    var r := Goal(g, v).r;
    var k :| 0 <= k < |r| && r[k] == (0, 1);
  }

  lemma {:induction false} RestrictedStarts(g: Graph, v: Plan, x: nat)
    requires g.Valid() && v.Valid() && FirstRestricted(v) && x < |g.adj|
    ensures Extending(Goal(g, v), [x]) != {} <==> StartsMatch(g, v, x)
  {
    hide Plan.Valid, Next, Goal, Extending;
    FirstPartial(g, v, x);
    var row := g.adj[x];
    var ys := set y | y in Elements(row) && y < x;
    forall y: nat ensures y in ys <==> Next(Goal(g, v), [x], y) {
      SmallerNeighbour(g, v, x, y);
    }
    LastVertex(Goal(g, v), [x], ys);
    if StartsMatch(g, v, x) {
      assert row[0] in ys;
    }
    if ys != {} {
      var y :| y in ys;
      var k :| 0 <= k < |row| && row[k] == y;
      assert k > 0 ==> row[0] < row[k];
    }
    NoneIsEmpty(Extending(Goal(g, v), [x]));
    NoneIsEmpty(ys);
  }

  lemma {:induction false} NoneIsEmpty<T>(s: set<T>)
    ensures |s| == 0 <==> s == {}
  {
  }

  lemma {:induction false} FirstPartial(g: Graph, v: Plan, x: nat)
    requires g.Valid() && v.Valid() && x < |g.adj|
    ensures var c := Goal(g, v); c.g == g && c.q.n == v.n && c.q.adj == v.adj && Partial(c, [x])
  {
    hide Plan.Valid, Next;
    PlanSizes(v);
    FirstIsNext(g, v, x);
    PartialGrows(Goal(g, v), [], x);
    assert [] + [x] == [x];
  }

  /** The first n - 1 neighbours as leaves. */
  lemma {:induction false} EnoughStart(g: Graph, v: Plan, x: nat)
    requires g.Valid() && v.Valid() && LeafFirst(v) && !FirstRestricted(v) && x < |g.adj| && |g.adj[x]| >= v.n - 1
    ensures [x] + g.adj[x][..v.n - 1] in Extending(Goal(g, v), [x])
  {
    hide Plan.Valid;
    NoneEnforced(g, v);
    FirstPartial(g, v, x);
    var c, row := Goal(g, v), g.adj[x];
    var h := [x] + row[..v.n - 1];
    forall i, j | 0 <= i < v.n && 0 <= j < v.n && i != j ensures PairFits(g, c.q, h, i, j) {
      StarFits(g, v, x, i, j);
    }
    assert h in All(c);
  }

  lemma {:induction false} StarFits(g: Graph, v: Plan, x: nat, i: nat, j: nat)
    requires g.Valid() && v.Valid() && LeafFirst(v) && x < |g.adj| && |g.adj[x]| >= v.n - 1
    requires i < v.n && j < v.n && i != j
    ensures PairFits(g, Goal(g, v).q, [x] + g.adj[x][..v.n - 1], i, j)
  {
    hide Tree, LoopsBuilt, Restrictions, Plan.ExclusionFits, Connected;
    var row := g.adj[x];
    var h := [x] + row[..v.n - 1];
    if i > 0 && j > 0 {
      LeavesHang(v, i, j);
    } else if i == 0 {
      assert h[j] == row[j - 1] && row[j - 1] in row;
    } else {
      assert h[i] == row[i - 1] && row[i - 1] in row;
      assert g.Edge(x, h[i]);
    }
  }

  /** The leaves of a match are different neighbours. */
  lemma {:induction false} StartNeeds(g: Graph, v: Plan, x: nat, h: seq<nat>)
    requires g.Valid() && v.Valid() && LeafFirst(v) && x < |g.adj| && h in Extending(Goal(g, v), [x])
    ensures |g.adj[x]| >= v.n - 1
  {
    hide Plan.Valid, Next;
    FirstPartial(g, v, x);
    var c, leaves, row := Goal(g, v), h[1..], g.adj[x];
    forall i | 0 <= i < |leaves| ensures leaves[i] in Elements(row) {
      LeavesHang(v, i + 1, i + 1);
      MatchIsNext(c, h, i + 1);
      NextIsAdjacent(c, h[..i + 1], h[i + 1]);
      assert g.Edge(x, h[i + 1]);
    }
    assert Elements(leaves) <= Elements(row);
    DistinctSize(leaves);
    DistinctSize(row);
    SubsetSize(Elements(leaves), Elements(row));
  }

  lemma {:induction false} NextIsAdjacent(c: Problem, f: seq<nat>, y: nat)
    requires c.Valid() && 0 < |f| < c.q.n && Next(c, f, y) && c.q.adj[|f|][0]
    ensures c.g.Edge(f[0], y)
  {
  }

  /** A vertex starts a match exactly if its row says so. */
  lemma {:induction false} StartsExactly(g: Graph, v: Plan, x: nat)
    requires g.Valid() && v.Valid() && LeafFirst(v) && x < |g.adj|
    ensures v.n >= 2 && (Extending(Goal(g, v), [x]) != {} <==> StartsMatch(g, v, x))
  {
    hide Plan.Valid, Graph.Valid, Goal, Extending;
    PlanSizes(v);
    if FirstRestricted(v) {
      RestrictedStarts(g, v, x);
    } else if |g.adj[x]| >= v.n - 1 {
      EnoughStart(g, v, x);
    } else if Extending(Goal(g, v), [x]) != {} {
      var h :| h in Extending(Goal(g, v), [x]);
      StartNeeds(g, v, x, h);
    }
  }

  // ----- when the result is right -----

  /** No restriction on vertex 1 is skipped over by the server and left to the divisor. */
  ghost predicate SkipEnforced(v: Plan)
    requires v.n > 1 && |v.restrictLast| == v.n
  {
    SkipFlag(v) ==> v.optimizeNum == 0
  }

  lemma {:induction false} SkipIsRestricted(g: Graph, v: Plan)
    requires g.Valid() && v.Valid() && LeafFirst(v)
    ensures |v.restrictLast| == v.n > 1 && (SkipFlag(v) && SkipEnforced(v) ==> FirstRestricted(v))
  {
    hide Tree, LoopsBuilt, Connected, Plan.ExclusionFits;
    if SkipFlag(v) && SkipEnforced(v) {
      assert Seconds(v.pairs)[v.restrictLast[1]] == 1;
    }
  }

  /** Every row that starts a match reaches the threads whole. */
  ghost predicate RowsWhole(g: Graph, v: Plan, k: Config)
    requires v.n >= 2 && Rows(g, k.c)
  {
    forall x :: 0 <= x < |g.adj| && StartsMatch(g, v, x) ==> WholeAt(g, k, x)
  }

  ghost predicate WholeAt(g: Graph, k: Config, x: nat)
    requires x < |g.adj| && Rows(g, k.c)
  {
    OffInside(k.c, x);
    RowWhole(k, x)
  }

  lemma {:induction false} RowPiece(g: Graph, v: Plan, k: Config, x: nat)
    requires g.Valid() && v.Valid() && LeafFirst(v) && x < |g.adj| && v.n >= 2 && |v.restrictLast| == v.n && SkipEnforced(v)
    requires k.Valid() && Rows(g, k.c) && k.skip == SkipFlag(v) && StartsMatch(g, v, x)
    ensures PiecesOf(k, x) > 0 && (PiecesOf(k, x) == 1 <==> WholeAt(g, k, x))
  {
    hide Plan.Valid, Graph.Valid, PiecesOf, Csr.Valid;
    RowOf(g, k.c, x);
    SkipIsRestricted(g, v);
    assert k.skip ==> k.c.edge[k.c.off[x]] == g.adj[x][0];
    WholeIsOne(k, x);
  }

  lemma {:induction false} RowsWeigh(p: Problem, v: nat)
    requires p.Valid() && p.q.n > 0
    ensures Sum(RowWeight(p), 0, v) == |Through(p, [], Below(v))|
  {
    hide Through, Extending;
    if v == 0 {
      NothingBelow(p);
    } else {
      RowsWeigh(p, v - 1);
      OneMoreBelow(p, v - 1);
    }
  }

  /** The condition: when depth 1 is a leaf the announced number is the number of matches
      if and only if no row that starts a match is cut. */
  lemma {:induction false} WholeRowsExact(g: Graph, v: Plan, c: Csr, mpiChunk: nat, ompChunk: nat)
    requires g.Valid() && v.Valid() && LeafFirst(v) && Rows(g, c) && mpiChunk > 0 && ompChunk > 0
    requires |v.restrictLast| == v.n && v.n > 1 && SkipEnforced(v)
    ensures Announced(g, v, c, mpiChunk, ompChunk) >= |All(Goal(g, v))|
    ensures Announced(g, v, c, mpiChunk, ompChunk) == |All(Goal(g, v))|
      <==> RowsWhole(g, v, ConfigFor(g, v, c, mpiChunk, ompChunk))
  {
    hide Plan.Valid, Graph.Valid, PiecesOf, PiecesSum, Csr.Valid, Extending, StartsMatch, WholeAt, Goal, All, Sum, IsRow;
    var k, p := ConfigFor(g, v, c, mpiChunk, ompChunk), Goal(g, v);
    var e := RowWeight(p);
    FirstEdge(g, v);
    forall x: nat | x < |g.adj|
      ensures e(x) >= 0 && (e(x) > 0 <==> StartsMatch(g, v, x))
      ensures e(x) > 0 ==> PiecesOf(k, x) > 0 && (PiecesOf(k, x) == 1 <==> WholeAt(g, k, x))
    {
      StartsExactly(g, v, x);
      NoneIsEmpty(Extending(p, [x]));
      if StartsMatch(g, v, x) {
        RowPiece(g, v, k, x);
      }
    }
    OnceEach(k, e, |g.adj|);
    RowsWeigh(p, |g.adj|);
    EverythingBelow(p);
  }

  /** The same for runs: what every finished run announces is right exactly then. */
  lemma {:induction false} LeafRunExact(g: Graph, v: Plan, c: Csr, mpiChunk: nat, ompChunk: nat,
                                        threads: seq<nat>, states: seq<State>, steps: seq<Step>, i: nat)
    requires g.Valid() && v.Valid() && LeafFirst(v) && Rows(g, c) && mpiChunk > 0 && ompChunk > 0
    requires |v.restrictLast| == v.n && v.n > 1 && SkipEnforced(v)
    requires |threads| > 0 && forall m :: 0 <= m < |threads| ==> threads[m] > 0
    requires var k := ConfigFor(g, v, c, mpiChunk, ompChunk); IsRun(k, states, steps) && states[0] == Start(k, threads)
    requires i < |states| && states[i].finished
    ensures states[i].tot == |All(Goal(g, v))| <==> RowsWhole(g, v, ConfigFor(g, v, c, mpiChunk, ompChunk))
  {
    hide *;
    DistributedCounts(g, v, c, mpiChunk, ompChunk, threads, states, steps, i, 0);
    WholeRowsExact(g, v, c, mpiChunk, ompChunk);
  }

  /** In particular when no vertex has more neighbours than a thread takes at once. */
  lemma {:induction false} ShortRowsExact(g: Graph, v: Plan, c: Csr, mpiChunk: nat, ompChunk: nat)
    requires g.Valid() && v.Valid() && LeafFirst(v) && Rows(g, c) && 0 < ompChunk <= mpiChunk
    requires |v.restrictLast| == v.n && v.n > 1 && SkipEnforced(v)
    requires forall x :: 0 <= x < |g.adj| ==> |g.adj[x]| <= ompChunk
    ensures Announced(g, v, c, mpiChunk, ompChunk) == |All(Goal(g, v))|
  {
    hide Plan.Valid, Graph.Valid, Csr.Valid, StartsMatch, Announced, All, Goal;
    var k := ConfigFor(g, v, c, mpiChunk, ompChunk);
    forall x: nat | x < |g.adj| ensures WholeAt(g, k, x) {
      RowOf(g, c, x);
    }
    WholeRowsExact(g, v, c, mpiChunk, ompChunk);
  }

  // ----- a graph on which it is wrong -----

  /** The chunk sizes the runtime chooses. */
  function OmpChunk(vCnt: nat, eCnt: nat): nat
    requires eCnt > 0
  {
    if vCnt * 70 / eCnt > 8 then vCnt * 70 / eCnt else 8
  }

  function MpiChunk(threadcnt: nat, ompChunk: nat): nat
    requires threadcnt > 0
  {
    (threadcnt - 1) * ompChunk
  }

  lemma {:induction false} OthersSize(u: nat, m: nat)
    ensures |Others(u, m)| == if u < m then m - 1 else m
    ensures forall k :: 0 <= k < |Others(u, m)| ==> Others(u, m)[k] == if k < u then k else k + 1
  {
    if m > 0 {
      OthersSize(u, m - 1);
    }
  }

  /** In the complete graph on ten vertices every row has nine entries, chunks have eight. */
  lemma {:induction false} TenIsCut(v: Plan, c: Csr, threadcnt: nat, k: Config)
    requires Complete(10).Valid() && Rows(Complete(10), c) && threadcnt >= 2
    requires k.c == c && k.ompChunk == OmpChunk(10, 90) && k.mpiChunk == MpiChunk(threadcnt, k.ompChunk)
    ensures |c.edge| == 90 && k.ompChunk == 8 && k.mpiChunk >= 8
    ensures !WholeAt(Complete(10), k, 9) && |Complete(10).adj[9]| == 9 && Complete(10).adj[9][0] == 0
  {
    hide Csr.Valid, Others;
    var g := Complete(10);
    TenEdges(c, 10);
    OthersSize(9, 10);
    RowOf(g, c, 9);
    if k.mpiChunk == 8 {
      assert c.edge[c.off[9] + 8] == g.adj[9][8] == 8;
    }
  }

  lemma {:induction false} TenEdges(c: Csr, v: nat)
    requires Rows(Complete(10), c) && v <= 10
    ensures c.off[v] == 9 * v && |c.off| == 11 && (v == 10 ==> |c.edge| == 90)
  {
    hide Csr.EdgeOf, Others;
    if v > 0 {
      TenEdges(c, v - 1);
      OthersSize(v - 1, 10);
      RowOf(Complete(10), c, v - 1);
    }
  }

  /** So every pattern of at most ten vertices with a leaf at depth 1 is counted wrongly on
      it, with the runtime's own chunk sizes and any number of threads. */
  lemma {:induction false} TenIsOvercounted(v: Plan, c: Csr, threadcnt: nat)
    requires v.Valid() && LeafFirst(v) && v.n <= 10 && |v.restrictLast| == v.n && v.n > 1 && SkipEnforced(v)
    requires Complete(10).Valid() && Rows(Complete(10), c) && threadcnt >= 2
    ensures |c.edge| == 90
    ensures var omp := OmpChunk(10, |c.edge|);
      var mpi := MpiChunk(threadcnt, omp);
      mpi > 0 && Announced(Complete(10), v, c, mpi, omp) > |All(Goal(Complete(10), v))|
  {
    hide Plan.Valid, Csr.Valid, Others, Announced, WholeAt, Goal, All, Graph.Valid;
    TenEdges(c, 10);
    var omp := OmpChunk(10, 90);
    var mpi := MpiChunk(threadcnt, omp);
    OthersSize(9, 10);
    AtLeastOneChunk(threadcnt);
    var k := ConfigFor(Complete(10), v, c, mpi, omp);
    TenIsCut(v, c, threadcnt, k);
    WholeRowsExact(Complete(10), v, c, mpi, omp);
    assert StartsMatch(Complete(10), v, 9);
  }

  lemma {:induction false} AtLeastOneChunk(threadcnt: nat)
    requires threadcnt >= 2
    ensures OmpChunk(10, 90) == 8 && MpiChunk(threadcnt, 8) >= 8
  {
  }

  /** The schedule of a single edge. */
  function EdgePlan(): Plan {
    Plan(2, [[false, true], [true, false]], [[0]], [-1], [0, -1], [-1], [-1, 0], [], [-1, -1], [], [], 0, [], [])
  }

  lemma {:induction false} EdgeNbrs()
    ensures Nbrs(EdgePlan().adj, 1) == [0]
  {
    var r := Nbrs(EdgePlan().adj, 1);
    assert 0 in r;
    assert |r| == 1;
  }

  lemma {:induction false} EdgeTree()
    ensures var v := EdgePlan();
      Tree(v.prefix, v.father, v.last, v.next, 2) && Restrictions(v.pairs, v.restrictLast, v.restrictNext, v.restrictIndex, 2)
  {
    var v := EdgePlan();
    assert Keys(v.prefix) == [0];
    assert FatherOf(v.prefix, v.father, 0);
  }

  lemma {:induction false} EdgeUsed()
    ensures Used(EdgePlan().adj, [0], 2)
  {
    EdgeNbrs();
  }

  lemma {:induction false} EdgePlanIsValid()
    ensures EdgePlan().Valid() && LeafFirst(EdgePlan())
  {
    hide Tree, Restrictions, Independent, Used;
    var v := EdgePlan();
    EdgeTree();
    EdgeNbrs();
    EdgeUsed();
    assert Query(2, v.adj, false).Valid();
  }

  /** The rows of the complete graph on ten vertices. */
  function TenRows(): Csr {
    Csr(seq(11, v => 9 * v), seq(90, e => if e % 9 < e / 9 then e % 9 else e % 9 + 1))
  }

  lemma {:induction false} TenRowsValid()
    ensures TenRows().Valid()
  {
    var c := TenRows();
    forall v: nat, i: nat, j: nat | c.EdgeOf(v, i) && c.EdgeOf(v, j) && i < j ensures c.edge[i] < c.edge[j] {
      assert i / 9 == v && j / 9 == v;
    }
  }

  lemma {:induction false} TenRowsFit()
    ensures Rows(Complete(10), TenRows())
  {
    hide Others, Csr.Valid;
    var g, c := Complete(10), TenRows();
    TenRowsValid();
    assert |c.off| == |g.adj| + 1;
    forall v: nat | v < |g.adj| ensures IsRow(g, c, v) {
      TenRow(v);
      assert g.adj[v] == Others(v, 10) && c.off[v] == 9 * v && c.off[v + 1] == 9 * (v + 1);
    }
  }

  lemma {:induction false} TenRow(v: nat)
    requires v < 10
    ensures TenRows().edge[9 * v..9 * (v + 1)] == Others(v, 10)
  {
    hide Others;
    OthersSize(v, 10);
    forall k: nat | k < 9 ensures TenRows().edge[9 * v + k] == Others(v, 10)[k] {
      assert (9 * v + k) / 9 == v && (9 * v + k) % 9 == k;
    }
  }

  /** For instance the single edge. */
  lemma {:induction false} EdgesOfTenOvercounted(threadcnt: nat)
    requires threadcnt >= 2
    ensures EdgePlan().Valid() && Complete(10).Valid() && Rows(Complete(10), TenRows()) && |TenRows().edge| == 90
    ensures var omp := OmpChunk(10, 90);
      var mpi := MpiChunk(threadcnt, omp);
      mpi > 0 && Announced(Complete(10), EdgePlan(), TenRows(), mpi, omp) > |All(Goal(Complete(10), EdgePlan()))|
  {
    hide Plan.Valid, Announced, Rows, Graph.Valid, Goal, All, MpiChunk, OmpChunk;
    EdgePlanIsValid();
    CompleteIsValid(10);
    TenRowsFit();
    TenIsOvercounted(EdgePlan(), TenRows(), threadcnt);
  }
}
