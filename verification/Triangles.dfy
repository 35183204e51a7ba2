/** Offsets and triangle counts of the converted graph. */
module Triangles {
  import opened Counting
  import opened Patterns
  import opened Symmetry
  import opened Permutations
  import opened VertexKernels
  import opened Completions
  import opened Interpreter
  import opened Ir
  import opened EdgeRanges
  import opened CsrBuild

  /** The triangle pattern. */
  ghost function Triangle(): (q: Query)
    ensures q.Valid() && q.n == 3 && !q.induced
    ensures forall i, j :: 0 <= i < 3 && 0 <= j < 3 ==> (q.adj[i][j] <==> i != j)
  {
    Query(3, [[false, true, true], [true, false, true], [true, true, false]], false)
  }

  ghost function Goal3(g: Graph): (c: Problem)
    requires g.Valid()
    ensures c.Valid() && c.g == g && c.q == Triangle() && c.r == []
  {
    Problem(g, Triangle(), [])
  }

  lemma {:induction false} CornerIsNext(g: Graph, v: nat, j: nat, x: nat)
    requires g.Valid() && v < |g.adj| && j in g.adj[v]
    ensures Next(Goal3(g), [v, j], x) <==> x in g.adj[v] && j < |g.adj| && x in g.adj[j]
  {
    var c, f := Goal3(g), [v, j];
    InRow(g, v, j);
    if x in g.adj[v] && x in g.adj[j] {
      InRow(g, v, x);
      InRow(g, j, x);
      assert g.Edge(f[0], x) && g.Edge(f[1], x);
    }
    if Next(c, f, x) {
      assert g.Edge(f[0], x) && g.Edge(f[1], x);
    }
  }

  lemma {:induction false} EdgeIsPartial(g: Graph, v: nat, j: nat)
    requires g.Valid() && v < |g.adj| && j in g.adj[v]
    ensures Completions.Partial(Goal3(g), [v, j]) && j < |g.adj| && j != v
  {
    var c := Goal3(g);
    InRow(g, v, j);
    assert Next(c, [], v);
    assert c.g.Edge([v][0], j);
    assert Next(c, [v], j);
    hide Next;
    PartialGrows(c, [], v);
    assert [] + [v] == [v];
    PartialGrows(c, [v], j);
    assert [v] + [j] == [v, j];
  }

  lemma {:induction false} InRow(g: Graph, v: nat, x: nat)
    requires g.Valid() && v < |g.adj| && x in g.adj[v]
    ensures x < |g.adj| && x != v
  {
    var k :| 0 <= k < |g.adj[v]| && g.adj[v][k] == x;
  }

  /** The common neighbours of an edge are its triangles. */
  lemma {:induction false} EdgeTriangles(g: Graph, v: nat, j: nat)
    requires g.Valid() && v < |g.adj| && j in g.adj[v]
    ensures j < |g.adj|
    ensures |Extending(Goal3(g), [v, j])| == |Elements(g.adj[v]) * Elements(g.adj[j])|
  {
    hide Next, Completions.Partial, Graph.Valid;
    var c := Goal3(g);
    EdgeIsPartial(g, v, j);
    var xs := Elements(g.adj[v]) * Elements(g.adj[j]);
    forall x: nat ensures x in xs <==> Next(c, [v, j], x) {
      CornerIsNext(g, v, j, x);
    }
    LastVertex(c, [v, j], xs);
  }

  lemma {:induction false} RowIsAll(g: Graph, v: nat)
    requires g.Valid() && v < |g.adj|
    ensures |Through(Goal3(g), [v], Elements(g.adj[v]))| == |Extending(Goal3(g), [v])|
  {
    var c := Goal3(g);
    forall x: nat | Next(c, [v], x) ensures x in Elements(g.adj[v]) {
      assert c.g.Edge([v][0], x);
    }
    ThroughAll(c, [v], Elements(g.adj[v]));
  }

  /** Sums the common neighbours over one row. */
  method CountAt(g: Graph, v: nat) returns (count: nat)
    requires g.Valid() && v < |g.adj|
    ensures count == |Extending(Goal3(g), [v])|
  {
    hide Seen, Through, Extending, Next, Completions.Partial;
    ghost var c := Goal3(g);
    var row := g.adj[v];
    count := 0;
    SeenNothing(c, [v], row);
    for j := 0 to |row|
      invariant count == Seen(c, [v], row, j)
    {
      SeenOne(c, [v], row, j);
      assert [v] + [row[j]] == [v, row[j]];
      EdgeTriangles(g, v, row[j]);
      assert Elements(row) * Elements(g.adj[row[j]]) == Limit.Free.Cut(Elements(row) * Elements(g.adj[row[j]]));
      var common := IntersectCnt(row, g.adj[row[j]], Limit.Free);
      count := count + common;
    }
    RowSeen(c, [v], row);
    RowIsAll(g, v);
  }

  lemma {:induction false} RowSeen(c: Problem, f: seq<nat>, row: seq<nat>)
    requires c.Valid()
    ensures Seen(c, f, row, |row|) == |Through(c, f, Elements(row))|
  {
    assert row[..|row|] == row;
  }

  /** offsets[v] counts the neighbours below v; triangles[v] the ordered triangles from v;
      their sum counts every ordered triangle of the graph. */
  method CountTriangles(g: Graph) returns (offsets: seq<nat>, triangles: seq<nat>, triNum: nat)
    requires g.Valid()
    ensures |offsets| == |triangles| == |g.adj|
    ensures forall v :: 0 <= v < |g.adj| ==> offsets[v] == |Upper(v).Cut(Elements(g.adj[v]))|
    ensures forall v :: 0 <= v < |g.adj| ==> triangles[v] == |Extending(Goal3(g), [v])|
    ensures triNum == |Matches(g, Triangle(), [])|
  {
    hide *;
    ghost var c := Goal3(g);
    Goal3Is(g);
    offsets, triangles, triNum := [], [], 0;
    NothingBelow(c);
    for v := 0 to |g.adj|
      invariant |offsets| == |triangles| == v
      invariant forall u :: 0 <= u < v ==> offsets[u] == |Upper(u).Cut(Elements(g.adj[u]))|
      invariant forall u :: 0 <= u < v ==> triangles[u] == |Extending(c, [u])|
      invariant triNum == |Through(c, [], Below(v))|
    {
      SortedRow(g, v);
      var below := BoundedCnt(g.adj[v], v);
      var count := CountAt(g, v);
      OneMoreBelow(c, v);
      offsets, triangles := offsets + [below], triangles + [count];
      triNum := triNum + count;
    }
    EverythingBelow(c);
  }

  lemma {:induction false} Goal3Is(g: Graph)
    requires g.Valid()
    ensures var c := Goal3(g); c.q.n == 3 && c.V() == |g.adj| && Triangle().Valid() && All(c) == Matches(g, Triangle(), [])
  {
  }

  lemma {:induction false} SortedRow(g: Graph, v: nat)
    requires g.Valid() && v < |g.adj|
    ensures Sorted(g.adj[v])
  {
  }

  // ----- the division by six -----

  /** Corners in descending order. */
  ghost function Descending(): (r: seq<Pair>)
    ensures |r| == 2 && r[0] == (0, 1) && r[1] == (1, 2)
  {
    [(0, 1), (1, 2)]
  }

  lemma {:induction false} AllArePreserved(p: seq<nat>)
    requires IsPerm(p, 3)
    ensures p in Automorphisms(Triangle())
  {
    var q := Triangle();
    forall i, j | 0 <= i < 3 && 0 <= j < 3 ensures q.adj[p[i]][p[j]] == q.adj[i][j] {
      assert i < j ==> p[i] != p[j];
      assert j < i ==> p[j] != p[i];
    }
  }

  lemma {:induction false} TriangleGroup()
    ensures Elements(Extensions(3, [], 0)) == Automorphisms(Triangle())
  {
    hide Extensions, Preserves;
    forall p: seq<nat> ensures p in Elements(Extensions(3, [], 0)) <==> p in Automorphisms(Triangle()) {
      ExtensionsComplete(3, [], 0, p);
      if IsPerm(p, 3) {
        AllArePreserved(p);
      }
    }
  }

  lemma {:induction false} FactorialOfThree()
    ensures Factorial(3) == 6
  {
    assert Factorial(3) == 3 * Factorial(2) && Factorial(2) == 2 * Factorial(1) && Factorial(1) == 1 * Factorial(0);
  }

  lemma {:induction false} SixAutomorphisms()
    ensures |Automorphisms(Triangle())| == 6
  {
    hide Extensions, Automorphisms, Factorial, Triangle, LexLess;
    var list := Extensions(3, [], 0);
    TriangleGroup();
    ExtensionsSorted(3, [], 0);
    LexSortedDistinct(list);
    DistinctSize(list);
    AllExtensionsCount(3, []);
    FactorialOfThree();
  }

  /** The corners taken in the order x, y, z descend. */
  ghost predicate Down(f: seq<nat>, a: seq<nat>)
    requires |f| == 3 && IsPerm(a, 3)
  {
    f[a[0]] > f[a[1]] > f[a[2]]
  }

  lemma {:induction false} DownIsOrdered(f: seq<nat>, a: seq<nat>)
    requires |f| == 3 && IsPerm(a, 3)
    ensures Ordered(Descending(), Compose(f, a)) <==> Down(f, a)
  {
    var h := Compose(f, a);
    assert h[0] == f[a[0]] && h[1] == f[a[1]] && h[2] == f[a[2]];
    if Ordered(Descending(), h) {
      assert h[Descending()[0].0] > h[Descending()[0].1] && h[Descending()[1].0] > h[Descending()[1].1];
    }
  }

  lemma {:induction false} OneOrder(f: seq<nat>, a: seq<nat>, b: seq<nat>)
    requires |f| == 3 && IsPerm(a, 3) && IsPerm(b, 3) && Down(f, a) && Down(f, b)
    ensures a == b
  {
    assert a[0] < 3 && a[1] < 3 && a[2] < 3 && b[0] < 3 && b[1] < 3 && b[2] < 3;
    assert a[0] == b[0] && a[1] == b[1] && a[2] == b[2];
  }

  lemma {:induction false} SomeOrder(f: seq<nat>) returns (a: seq<nat>)
    requires |f| == 3 && Injective(f)
    ensures IsPerm(a, 3) && Down(f, a)
  {
    assert f[0] != f[1] && f[0] != f[2] && f[1] != f[2];
    a := if f[0] > f[1] then (if f[1] > f[2] then [0, 1, 2] else if f[0] > f[2] then [0, 2, 1] else [2, 0, 1])
         else if f[0] > f[2] then [1, 0, 2] else if f[1] > f[2] then [1, 2, 0] else [2, 1, 0];
  }

  lemma {:induction false} DescendingBreaks()
    ensures BreaksSymmetry(Triangle(), Descending())
  {
    hide Down;
    var q, r := Triangle(), Descending();
    forall f, a, b | |f| == q.n && Injective(f) && a in Automorphisms(q) && b in Automorphisms(q)
      && Ordered(r, Compose(f, a)) && Ordered(r, Compose(f, b))
      ensures a == b
    {
      DownIsOrdered(f, a);
      DownIsOrdered(f, b);
      OneOrder(f, a, b);
    }
    forall f | |f| == q.n && Injective(f) ensures HasImage(q, r, f) {
      var a := SomeOrder(f);
      AllArePreserved(a);
      DownIsOrdered(f, a);
    }
  }

  /** The stored number is six times the number of triangles, so dividing it by six, as
      the metadata reader does, gives the number of triangles. */
  lemma {:induction false} SixTimesTriangles(g: Graph, triNum: nat)
    requires g.Valid() && triNum == |Matches(g, Triangle(), [])|
    ensures triNum == 6 * |Matches(g, Triangle(), Descending())|
    ensures triNum / 6 == |Matches(g, Triangle(), Descending())|
  {
    hide Automorphisms, Matches, Triangle, Descending, BreaksSymmetry;
    SixAutomorphisms();
    DescendingBreaks();
    RestrictedCount(g, Triangle(), Descending());
  }

  method RowsOf(n: nat, indptr: seq<nat>, indices: seq<nat>, ghost degrees: seq<nat>) returns (g: Graph)
    requires |indptr| == n + 1 && |degrees| == n && forall v: nat :: v < n ==> RowSpan(indptr, indices, degrees, v)
    ensures g == GraphOf(n, indptr, indices)
  {
    var adj: seq<seq<nat>> := [];
    for v := 0 to n
      invariant |adj| == v && forall u :: 0 <= u < v ==> adj[u] == Row(n, indptr, indices, u)
    {
      assert RowSpan(indptr, indices, degrees, v);
      adj := adj + [indices[indptr[v]..indptr[v + 1]]];
    }
    g := Graph(adj);
  }

  /** load_txt from the edge list onward. */
  method Convert(input: seq<Pair>)
    returns (indptr: seq<nat>, indices: seq<nat>, degrees: seq<nat>, offsets: seq<nat>, triangles: seq<nat>, triNum: nat,
             ghost g: Graph, ghost idMap: seq<Option<nat>>)
    ensures g.Valid() && |g.adj| == |degrees| && g == GraphOf(|degrees|, indptr, indices)
    ensures Converted(input, idMap, |degrees|, g) && Csr(indptr, indices).Valid()
    ensures forall v: nat :: v < |degrees| ==> RowSpan(indptr, indices, degrees, v)
    ensures |offsets| == |degrees| && forall v :: 0 <= v < |offsets| ==> offsets[v] == |Upper(v).Cut(Elements(g.adj[v]))|
    ensures |triangles| == |degrees| && forall v :: 0 <= v < |triangles| ==> triangles[v] == |Extending(Goal3(g), [v])|
    ensures triNum == 6 * |Matches(g, Triangle(), Descending())|
  {
    hide Converted, Graph.Valid, Csr.Valid, Matches, Extending, RowSpan, GraphOf;
    var n;
    n, indptr, indices, degrees, idMap := BuildRows(input);
    var rows := RowsOf(n, indptr, indices, degrees);
    g := rows;
    GraphSize(n, indptr, indices);
    offsets, triangles, triNum := CountTriangles(rows);
    SixTimesTriangles(rows, triNum);
  }

  lemma {:induction false} GraphSize(n: nat, indptr: seq<nat>, indices: seq<nat>)
    ensures |GraphOf(n, indptr, indices).adj| == n
  {
  }
}
