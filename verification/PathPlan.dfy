/** The compiled plan that ships with the repository: induced paths on four vertices. */
module PathPlan {
  import opened Counting
  import opened Patterns
  import opened Symmetry
  import opened SortedLists
  import opened VertexKernels
  import opened Completions
  import opened Interpreter

  /** The path 2 - 0 - 1 - 3, induced, in the order the loops choose its vertices. */
  ghost function Path(): (q: Query)
    ensures q.Valid() && q.n == 4 && q.induced
    ensures forall i, j :: 0 <= i < j < 4 ==> (q.adj[i][j] <==> PathEdge(i, j)) && q.adj[j][i] == q.adj[i][j]
  {
    Query(4, [[false, true, true, false], [true, false, false, true], [true, false, false, false],
              [false, true, false, false]], true)
  }

  predicate PathEdge(i: nat, j: nat) {
    (i == 0 && j == 1) || (i == 0 && j == 2) || (i == 1 && j == 3)
  }

  /** The vertex of loop 0 is the greater one of the middle edge. */
  ghost function Middle(): (r: seq<Pair>)
    ensures |r| == 1 && r[0] == (0, 1)
  {
    [(0, 1)]
  }

  ghost function Goal4(g: Graph): (c: Problem)
    requires g.Valid()
    ensures c.Valid() && c.g == g && c.q == Path() && c.r == Middle()
  {
    Problem(g, Path(), Middle())
  }

  // ----- the four loops choose what may come next -----

  ghost predicate Nbr(g: Graph, v: nat, x: nat) {
    v < |g.adj| && x in g.adj[v]
  }

  lemma {:induction false} InGraphRow(g: Graph, v: nat, x: nat)
    requires g.Valid() && Nbr(g, v, x)
    ensures x < |g.adj| && x != v && Nbr(g, x, v)
  {
    var k :| 0 <= k < |g.adj[v]| && g.adj[v][k] == x;
    assert g.Edge(v, x) && g.Edge(x, v);
  }

  lemma {:induction false} SecondIsNext(g: Graph, a: nat, x: nat)
    requires g.Valid() && a < |g.adj|
    ensures Completions.Partial(Goal4(g), [a])
    ensures Next(Goal4(g), [a], x) <==> Nbr(g, a, x) && x < a
  {
    var c := Goal4(g);
    assert Next(c, [], a);
    PartialGrows(c, [], a);
    assert [] + [a] == [a];
    if Nbr(g, a, x) {
      InGraphRow(g, a, x);
      assert c.g.Edge([a][0], x);
    }
    if Next(c, [a], x) {
      assert c.g.Edge([a][0], x) && x < [a][c.r[0].0];
    }
  }

  lemma {:induction false} ThirdIsNext(g: Graph, a: nat, b: nat, x: nat)
    requires g.Valid() && Nbr(g, a, b)
    ensures Next(Goal4(g), [a, b], x) <==> Nbr(g, a, x) && !Nbr(g, b, x) && x != b
  {
    var c, f := Goal4(g), [a, b];
    if Nbr(g, a, x) {
      InGraphRow(g, a, x);
      assert c.g.Edge(f[0], x);
    }
    if Next(c, f, x) {
      assert c.g.Edge(f[0], x) && !c.g.Edge(f[1], x);
      assert x !in f;
    }
  }

  lemma {:induction false} FourthIsNext(g: Graph, a: nat, b: nat, e: nat, x: nat)
    requires g.Valid() && Nbr(g, a, b) && Nbr(g, a, e)
    ensures Next(Goal4(g), [a, b, e], x) <==> Nbr(g, b, x) && !Nbr(g, a, x) && x != a && !Nbr(g, e, x) && x != e
  {
    var c, f := Goal4(g), [a, b, e];
    if Nbr(g, b, x) {
      InGraphRow(g, b, x);
      assert c.g.Edge(f[1], x);
    }
    if Next(c, f, x) {
      assert c.g.Edge(f[1], x) && !c.g.Edge(f[0], x) && !c.g.Edge(f[2], x);
      assert x !in f && f[0] == a && f[2] == e;
    }
    InGraphRow(g, a, e);
  }

  ghost function Ends(g: Graph, a: nat, b: nat): set<nat>
    requires a < |g.adj| && b < |g.adj|
  {
    Elements(g.adj[b]) - Elements(g.adj[a]) - {a}
  }

  /** The last vertex of a match is a neighbour of b only. */
  lemma {:induction false} EndOf(g: Graph, a: nat, b: nat, h: seq<nat>)
    requires g.Valid() && Nbr(g, a, b) && a < |g.adj| && b < |g.adj|
    ensures h in Extending(Goal4(g), [a, b]) ==> h[3] in Ends(g, a, b)
  {
    hide Next;
    var c := Goal4(g);
    if h in Extending(c, [a, b]) {
      MatchIsNext(c, h, 2);
      assert h[..2] == [a, b];
      ThirdIsNext(g, a, b, h[2]);
      MatchIsNext(c, h, 3);
      assert h[..3] == [a, b, h[2]];
      FourthIsNext(g, a, b, h[2], h[3]);
    }
  }

  /** With no fourth vertex possible the second choice is fruitless. */
  lemma {:induction false} NoEnd(g: Graph, a: nat, b: nat)
    requires g.Valid() && Nbr(g, a, b) && a < |g.adj| && b < |g.adj| && Ends(g, a, b) == {}
    ensures Extending(Goal4(g), [a, b]) == {}
  {
    hide Extending;
    forall h ensures h !in Extending(Goal4(g), [a, b]) {
      EndOf(g, a, b, h);
    }
  }

  // ----- the loops -----

  lemma {:induction false} EndCount(g: Graph, a: nat, b: nat, e: nat, xs: set<nat>)
    requires g.Valid() && Nbr(g, a, b) && Nbr(g, a, e) && b < |g.adj| && e < |g.adj| && b < a
    requires e !in g.adj[b] && e != b
    requires xs == Elements(g.adj[b]) - Elements(g.adj[a]) - {a} - Elements(g.adj[e]) - {e}
    ensures |Extending(Goal4(g), [a, b, e])| == |xs|
  {
    hide Next, Completions.Partial, Extending;
    var c := Goal4(g);
    SecondIsNext(g, a, b);
    PartialGrows(c, [a], b);
    assert [a] + [b] == [a, b];
    ThirdIsNext(g, a, b, e);
    PartialGrows(c, [a, b], e);
    assert [a, b] + [e] == [a, b, e];
    forall x: nat ensures x in xs <==> Next(c, [a, b, e], x) {
      FourthIsNext(g, a, b, e, x);
    }
    LastVertex(c, [a, b, e], xs);
  }

  lemma {:induction false} ListHolds(list: seq<nat>, s: set<nat>, i: nat)
    requires Lists(list, s) && i < |list|
    ensures list[i] in s
  {
    assert list[i] in Elements(list);
  }

  ghost function Thirds(g: Graph, a: nat, b: nat): set<nat>
    requires a < |g.adj| && b < |g.adj|
  {
    Elements(g.adj[a]) - Elements(g.adj[b]) - {b}
  }

  lemma {:induction false} FreeCut(s: set<nat>)
    ensures Limit.Free.Cut(s) == s
  {
  }

  /** Loop 2's body: the fourth vertices for one third vertex. */
  method CountEnds(g: Graph, a: nat, b: nat, e: nat, s2: seq<nat>) returns (ends: nat)
    requires g.Valid() && Nbr(g, a, b) && a < |g.adj| && b < |g.adj| && b < a
    requires Lists(s2, Ends(g, a, b)) && e in Thirds(g, a, b)
    ensures ends == |Extending(Goal4(g), [a, b, e])|
  {
    hide Extending, Next, Limit.Cut;
    assert Nbr(g, a, e);
    InGraphRow(g, a, e);
    ends := SubtractCnt(s2, g.adj[e], e, Limit.Free);
    FreeCut(Elements(s2) - Elements(g.adj[e]) - {e});
    EndCount(g, a, b, e, Elements(s2) - Elements(g.adj[e]) - {e});
  }

  /** Loop 2: the neighbours of a that b does not know. */
  method ThirdLoop(g: Graph, a: nat, b: nat, s0: seq<nat>, s2: seq<nat>) returns (counter: nat)
    requires g.Valid() && Nbr(g, a, b) && a < |g.adj| && b < |g.adj| && b < a && s0 == g.adj[a]
    requires Lists(s2, Ends(g, a, b))
    ensures counter == |Extending(Goal4(g), [a, b])|
  {
    hide Graph.Valid, Seen, Extending, Next, Limit.Cut, Nbr, Goal4, Path, Middle;
    ghost var c := Goal4(g);
    RowsSorted(g, a, b);
    var s3 := Subtract(s0, g.adj[b], b, Limit.Free);
    FreeCut(Thirds(g, a, b));
    ThirdsSorted(g, a, b, s3);
    counter := 0;
    SeenNothing(c, [a, b], s3);
    for i := 0 to |s3|
      invariant counter == Seen(c, [a, b], s3, i)
    {
      ListHolds(s3, Thirds(g, a, b), i);
      SeenOne(c, [a, b], s3, i);
      assert [a, b] + [s3[i]] == [a, b, s3[i]];
      var ends := CountEnds(g, a, b, s3[i], s2);
      counter := counter + ends;
    }
    AllThirds(g, a, b, s3);
  }

  lemma {:induction false} RowsSorted(g: Graph, a: nat, b: nat)
    requires g.Valid() && a < |g.adj| && b < |g.adj|
    ensures Sorted(g.adj[a]) && Sorted(g.adj[b])
  {
  }

  lemma {:induction false} ThirdsSorted(g: Graph, a: nat, b: nat, s3: seq<nat>)
    requires g.Valid() && a < |g.adj| && b < |g.adj| && Lists(s3, Thirds(g, a, b))
    ensures Sorted(s3) && Goal4(g).q.n == 4
  {
  }

  lemma {:induction false} AllThirds(g: Graph, a: nat, b: nat, s3: seq<nat>)
    requires g.Valid() && Nbr(g, a, b) && a < |g.adj| && b < |g.adj| && Lists(s3, Thirds(g, a, b))
    ensures Seen(Goal4(g), [a, b], s3, |s3|) == |Extending(Goal4(g), [a, b])|
  {
    hide Next, Extending;
    var c := Goal4(g);
    assert s3[..|s3|] == s3;
    forall x: nat | Next(c, [a, b], x) ensures x in Elements(s3) {
      ThirdIsNext(g, a, b, x);
    }
    ThroughAll(c, [a, b], Elements(s3));
  }

  /** Loop 1: the smaller neighbours of a. */
  method SecondLoop(g: Graph, a: nat) returns (counter: nat)
    requires g.Valid() && a < |g.adj|
    ensures counter == |Extending(Goal4(g), [a])|
  {
    hide Seen, Extending, Next, Limit.Cut;
    ghost var c := Goal4(g);
    counter := 0;
    var s0 := g.adj[a];
    if |s0| == 0 {
      AllSeconds(g, a, []);
      SeenNothing(c, [a], []);
      return;
    }
    var s1 := BoundedBy(s0, a);
    SeenNothing(c, [a], s1);
    for i := 0 to |s1|
      invariant counter == Seen(c, [a], s1, i)
    {
      var b := s1[i];
      ListHolds(s1, Upper(a).Cut(Elements(s0)), i);
      assert Nbr(g, a, b) && b < a;
      SeenOne(c, [a], s1, i);
      assert [a] + [b] == [a, b];
      var s2 := Subtract(g.adj[b], s0, a, Limit.Free);
      FreeCut(Ends(g, a, b));
      if |s2| == 0 {
        assert Elements(s2) == {};
        NoEnd(g, a, b);
      } else {
        var more := ThirdLoop(g, a, b, s0, s2);
        counter := counter + more;
      }
    }
    AllSeconds(g, a, s1);
  }

  lemma {:induction false} AllSeconds(g: Graph, a: nat, s1: seq<nat>)
    requires g.Valid() && a < |g.adj| && Lists(s1, Upper(a).Cut(Elements(g.adj[a])))
    ensures Seen(Goal4(g), [a], s1, |s1|) == |Extending(Goal4(g), [a])|
  {
    hide Next, Extending;
    var c := Goal4(g);
    assert s1[..|s1|] == s1;
    forall x: nat | Next(c, [a], x) ensures x in Elements(s1) {
      SecondIsNext(g, a, x);
    }
    ThroughAll(c, [a], Elements(s1));
  }

  lemma {:induction false} Goal4Is(g: Graph)
    requires g.Valid()
    ensures var c := Goal4(g); c.q.n == 4 && c.V() == |g.adj| && Path().Valid() && All(c) == Matches(g, Path(), Middle())
  {
  }

  /** The plan: loop 0 over all vertices. */
  method CountPaths(g: Graph) returns (counter: nat)
    requires g.Valid()
    ensures counter == |Matches(g, Path(), Middle())|
  {
    hide *;
    ghost var c := Goal4(g);
    Goal4Is(g);
    counter := 0;
    NothingBelow(c);
    for a := 0 to |g.adj|
      invariant counter == |Through(c, [], Below(a))|
    {
      var count := SecondLoop(g, a);
      OneMoreBelow(c, a);
      counter := counter + count;
    }
    EverythingBelow(c);
  }

  // ----- each path once -----

  /** A path reads the same from both ends. */
  ghost function Flip(): (p: seq<nat>)
    ensures IsPerm(p, 4)
    ensures p[0] == 1 && p[1] == 0 && p[2] == 3 && p[3] == 2
  {
    [1, 0, 3, 2]
  }

  lemma {:induction false} TwoAutomorphisms(p: seq<nat>)
    requires p in Automorphisms(Path())
    ensures p == Identity(4) || p == Flip()
  {
    var q := Path();
    assert p[0] < 4 && p[1] < 4 && p[2] < 4 && p[3] < 4;
    assert p[0] != p[1] && p[0] != p[2] && p[0] != p[3] && p[1] != p[2] && p[1] != p[3] && p[2] != p[3];
    assert q.adj[p[0]][p[1]] && q.adj[p[0]][p[2]] && q.adj[p[1]][p[3]];
    assert p[0] < 2 && p[1] < 2;
    if p[0] == 0 {
      assert p == Identity(4);
    } else {
      assert p == Flip();
    }
  }

  lemma {:induction false} FlipIsAutomorphism()
    ensures Flip() in Automorphisms(Path())
  {
  }

  lemma {:induction false} PathSymmetries()
    ensures Automorphisms(Path()) == {Identity(4), Flip()} && |Automorphisms(Path())| == 2
  {
    var q := Path();
    FlipIsAutomorphism();
    IdentityIsAutomorphism(q);
    hide Path, Automorphisms;
    forall p ensures p in Automorphisms(q) <==> p in {Identity(4), Flip()} {
      if p in Automorphisms(q) {
        TwoAutomorphisms(p);
      }
    }
    assert Identity(4)[0] != Flip()[0];
  }

  lemma {:induction false} SameSide(f: seq<nat>, a: seq<nat>, b: seq<nat>)
    requires |f| == 4 && a in Automorphisms(Path()) && b in Automorphisms(Path())
    requires Ordered(Middle(), Compose(f, a)) && Ordered(Middle(), Compose(f, b))
    ensures a == b
  {
    hide Path, Automorphisms, Middle, Ordered, Compose;
    PathSymmetries();
    MiddleOrder(f, a);
    MiddleOrder(f, b);
  }

  lemma {:induction false} SomeSide(f: seq<nat>)
    requires |f| == 4 && Injective(f)
    ensures HasImage(Path(), Middle(), f)
  {
    hide Path, Automorphisms, Middle, Ordered, Compose;
    PathSymmetries();
    assert f[0] != f[1];
    var a := if f[0] > f[1] then Identity(4) else Flip();
    assert Identity(4)[0] == 0 && Identity(4)[1] == 1;
    MiddleOrder(f, a);
  }

  lemma {:induction false} MiddleBreaks()
    ensures BreaksSymmetry(Path(), Middle())
  {
    hide Automorphisms, Middle, Ordered, Compose, HasImage;
    var q, r := Path(), Middle();
    forall f, a, b | |f| == q.n && Injective(f) && a in Automorphisms(q) && b in Automorphisms(q)
      && Ordered(r, Compose(f, a)) && Ordered(r, Compose(f, b))
      ensures a == b
    {
      SameSide(f, a, b);
    }
    forall f | |f| == q.n && Injective(f) ensures HasImage(q, r, f) {
      SomeSide(f);
    }
  }

  lemma {:induction false} MiddleOrder(f: seq<nat>, a: seq<nat>)
    requires |f| == 4 && IsPerm(a, 4)
    ensures Ordered(Middle(), Compose(f, a)) <==> f[a[0]] > f[a[1]]
  {
    if Ordered(Middle(), Compose(f, a)) {
      assert Compose(f, a)[Middle()[0].0] > Compose(f, a)[Middle()[0].1];
    }
  }

  /** Each induced path is found from both ends by an unrestricted search and once by the plan. */
  lemma {:induction false} EachPathOnce(g: Graph, counter: nat)
    requires g.Valid() && counter == |Matches(g, Path(), Middle())|
    ensures 2 * counter == |Matches(g, Path(), [])|
  {
    hide Path, Middle, Matches, Automorphisms, BreaksSymmetry;
    PathSymmetries();
    MiddleBreaks();
    RestrictedCount(g, Path(), Middle());
  }
}
