/** Partial matches and the full matches that extend them. */
module Completions {
  import opened Counting
  import opened Patterns
  import opened Schedules

  /** The restrictions that are enforced: those whose second vertex comes before `limit`. */
  ghost function Enforced(r: seq<Pair>, limit: nat): (e: seq<Pair>)
    ensures forall p :: p in e <==> p in r && p.1 < limit
  {
    if |r| == 0 then
      []
    else
      Enforced(r[..|r| - 1], limit) + if r[|r| - 1].1 < limit then [r[|r| - 1]] else []
  }

  lemma {:induction false} AllEnforced(r: seq<Pair>, n: nat)
    requires InOrder(r, n)
    ensures Enforced(r, n) == r
  {
    if |r| > 0 {
      AllEnforced(r[..|r| - 1], n);
    }
  }

  /** One counting problem: a graph, a pattern and the enforced restrictions. */
  datatype Problem = Problem(g: Graph, q: Query, r: seq<Pair>) {
    ghost predicate Valid() {
      g.Valid() && q.Valid() && InOrder(r, q.n)
    }

    ghost function V(): nat { |g.adj| }
  }

  ghost function All(c: Problem): set<seq<nat>>
    requires c.Valid()
  {
    Matches(c.g, c.q, c.r)
  }

  /** The matches that start with f. */
  ghost function Extending(c: Problem, f: seq<nat>): (s: set<seq<nat>>)
    requires c.Valid()
    ensures forall h :: h in s <==> h in All(c) && f <= h
  {
    set h | h in All(c) && f <= h
  }

  /** The matches that start with f and continue inside xs. */
  ghost function Through(c: Problem, f: seq<nat>, xs: set<nat>): (s: set<seq<nat>>)
    requires c.Valid()
    ensures forall h :: h in s <==> h in Extending(c, f) && |f| < c.q.n && h[|f|] in xs
  {
    set h | h in Extending(c, f) && |f| < c.q.n && h[|f|] in xs
  }

  /** x may follow f: fits the edges (and non-edges) to f, is new, and obeys the restrictions. */
  ghost predicate Next(c: Problem, f: seq<nat>, x: nat)
    requires c.Valid() && |f| < c.q.n
  {
    && x < c.V()
    && (forall j :: 0 <= j < |f| && c.q.adj[|f|][j] ==> c.g.Edge(f[j], x))
    && (c.q.induced ==> forall j :: 0 <= j < |f| && !c.q.adj[|f|][j] ==> !c.g.Edge(f[j], x))
    && x !in f
    && (forall k :: 0 <= k < |c.r| && c.r[k].1 == |f| ==> x < f[c.r[k].0])
  }

  /** f satisfies every condition among its own vertices. */
  ghost predicate Partial(c: Problem, f: seq<nat>)
    requires c.Valid()
  {
    |f| <= c.q.n && forall i :: 0 <= i < |f| ==> Next(c, f[..i], f[i])
  }

  lemma {:induction false} PartialGrows(c: Problem, f: seq<nat>, x: nat)
    requires c.Valid() && Partial(c, f) && |f| < c.q.n && Next(c, f, x)
    ensures Partial(c, f + [x])
  {
    var h := f + [x];
    forall i | 0 <= i < |h| ensures Next(c, h[..i], h[i]) {
      if i < |f| {
        assert h[..i] == f[..i];
      } else {
        assert h[..i] == f;
      }
    }
  }

  lemma {:induction false} MatchIsNext(c: Problem, h: seq<nat>, d: nat)
    requires c.Valid() && h in All(c) && d < c.q.n
    ensures Next(c, h[..d], h[d])
  {
    var f, x := h[..d], h[d];
    forall j | 0 <= j < d && c.q.adj[d][j] ensures c.g.Edge(f[j], x) {
      assert PairFits(c.g, c.q, h, j, d);
    }
    if c.q.induced {
      forall j | 0 <= j < d && !c.q.adj[d][j] ensures !c.g.Edge(f[j], x) {
        assert PairFits(c.g, c.q, h, j, d);
      }
    }
    forall k | 0 <= k < |c.r| && c.r[k].1 == d ensures x < f[c.r[k].0] {
      assert h[c.r[k].0] > h[c.r[k].1];
    }
  }

  lemma {:induction false} PartialIsInjective(c: Problem, f: seq<nat>)
    requires c.Valid() && Partial(c, f)
    ensures Injective(f) && IsTuple(f, |f|, c.V())
  {
    forall i, j | 0 <= i < j < |f| ensures f[i] != f[j] {
      assert Next(c, f[..j], f[j]);
      assert f[..j][i] == f[i];
    }
    forall i | 0 <= i < |f| ensures f[i] < c.V() {
      assert Next(c, f[..i], f[i]);
    }
  }

  /** A partial match on all vertices is a match. */
  lemma {:induction false} FullPartialMatches(c: Problem, f: seq<nat>)
    requires c.Valid() && |f| == c.q.n
    ensures Partial(c, f) <==> f in All(c)
  {
    if Partial(c, f) {
      PartialIsInjective(c, f);
      forall i, j | 0 <= i < c.q.n && 0 <= j < c.q.n && i != j ensures PairFits(c.g, c.q, f, i, j) {
        var lo, hi := if i < j then i else j, if i < j then j else i;
        assert Next(c, f[..hi], f[hi]);
        assert f[..hi][lo] == f[lo];
      }
      forall k | 0 <= k < |c.r| ensures f[c.r[k].0] > f[c.r[k].1] {
        var d := c.r[k].1;
        assert Next(c, f[..d], f[d]);
        assert f[..d][c.r[k].0] == f[c.r[k].0];
      }
    }
    if f in All(c) {
      forall i | 0 <= i < |f| ensures Next(c, f[..i], f[i]) {
        MatchIsNext(c, f, i);
      }
    }
  }

  /** The continuations of f split by the next vertex. */
  lemma {:induction false} ThroughOne(c: Problem, f: seq<nat>, x: nat)
    requires c.Valid() && |f| < c.q.n
    ensures Through(c, f, {x}) == Extending(c, f + [x])
  {
    forall h ensures h in Through(c, f, {x}) <==> h in Extending(c, f + [x]) {
      if h in Extending(c, f + [x]) {
        assert h[|f|] == x;
        assert f <= f + [x] <= h;
      }
      if h in Through(c, f, {x}) {
        assert h[..|f| + 1] == f + [x];
      }
    }
  }

  lemma {:induction false} ThroughMore(c: Problem, f: seq<nat>, xs: set<nat>, x: nat)
    requires c.Valid() && |f| < c.q.n && x !in xs
    ensures |Through(c, f, xs + {x})| == |Through(c, f, xs)| + |Extending(c, f + [x])|
  {
    ThroughOne(c, f, x);
    assert Through(c, f, xs + {x}) == Through(c, f, xs) + Through(c, f, {x});
    assert Through(c, f, xs) !! Through(c, f, {x});
  }

  lemma {:induction false} ExtensionIsNext(c: Problem, f: seq<nat>, h: seq<nat>)
    requires c.Valid() && |f| < c.q.n && h in Extending(c, f)
    ensures Next(c, f, h[|f|])
  {
    MatchIsNext(c, h, |f|);
    assert h[..|f|] == f;
  }

  lemma {:induction false} NotNext(c: Problem, f: seq<nat>, x: nat)
    requires c.Valid() && |f| < c.q.n && !Next(c, f, x)
    ensures Extending(c, f + [x]) == {}
  {
    ThroughOne(c, f, x);
    forall h | h in Extending(c, f) ensures h[|f|] != x {
      ExtensionIsNext(c, f, h);
    }
  }

  /** When xs contains everything that may follow f, nothing is lost. */
  lemma {:induction false} ThroughAll(c: Problem, f: seq<nat>, xs: set<nat>)
    requires c.Valid() && |f| < c.q.n
    requires forall x: nat :: Next(c, f, x) ==> x in xs
    ensures Through(c, f, xs) == Extending(c, f)
  {
    forall h | h in Extending(c, f) ensures h in Through(c, f, xs) {
      ExtensionIsNext(c, f, h);
    }
  }

  /** With one vertex to go, the matches are the admissible next vertices. */
  lemma {:induction false} LastVertex(c: Problem, f: seq<nat>, xs: set<nat>)
    requires c.Valid() && |f| + 1 == c.q.n && Partial(c, f)
    requires forall x: nat :: x in xs <==> Next(c, f, x)
    ensures |Extending(c, f)| == |xs|
  {
    var add := (x: nat) => f + [x];
    forall x, y | x in xs && y in xs && add(x) == add(y) ensures x == y {
      assert add(x)[|f|] == x && add(y)[|f|] == y;
    }
    ImageSize(add, xs);
    forall h ensures h in Image(add, xs) <==> h in Extending(c, f) {
      if h in Extending(c, f) {
        MatchIsNext(c, h, |f|);
        assert h[..|f|] == f && h == f + [h[|f|]];
        assert add(h[|f|]) == h;
      }
      if h in Image(add, xs) {
        var x :| x in xs && add(x) == h;
        PartialGrows(c, f, x);
        FullPartialMatches(c, h);
      }
    }
    assert Image(add, xs) == Extending(c, f);
  }

  // ----- candidate sets -----

  /** The vertices adjacent to f[j] for every j in p. */
  ghost function Candidates(g: Graph, f: seq<nat>, p: seq<nat>): (s: set<nat>)
    ensures forall x: nat :: x in s <==> x < |g.adj| && AllAdjacent(g, f, p, x)
  {
    set x | x in Below(|g.adj|) && AllAdjacent(g, f, p, x)
  }

  ghost predicate AllAdjacent(g: Graph, f: seq<nat>, p: seq<nat>, x: nat) {
    forall j :: 0 <= j < |p| ==> p[j] < |f| && g.Edge(f[p[j]], x)
  }

  /** Matching vertex i against its earlier neighbours is membership in its loop set. */
  lemma {:induction false} LoopSetIsNext(c: Problem, f: seq<nat>, x: nat)
    requires c.Valid() && !c.q.induced && |f| < c.q.n
    ensures Next(c, f, x) <==>
      && x in Candidates(c.g, f, Nbrs(c.q.adj, |f|)) && x !in f
      && (forall k :: 0 <= k < |c.r| && c.r[k].1 == |f| ==> x < f[c.r[k].0])
  {
    var p := Nbrs(c.q.adj, |f|);
    if AllAdjacent(c.g, f, p, x) {
      forall j: nat | j < |f| && c.q.adj[|f|][j] ensures c.g.Edge(f[j], x) {
        var k :| 0 <= k < |p| && p[k] == j;
        assert c.g.Edge(f[p[k]], x);
      }
    }
  }

  /** Every match passes through the candidate set of each part of a later neighbour list. */
  lemma {:induction false} MatchPasses(c: Problem, f: seq<nat>, p: seq<nat>, i: nat, h: seq<nat>)
    requires c.Valid() && i < c.q.n && p <= Nbrs(c.q.adj, i)
    requires forall j :: 0 <= j < |p| ==> p[j] < |f|
    requires h in Extending(c, f)
    ensures h[i] in Candidates(c.g, f, p)
  {
    MatchIsNext(c, h, i);
    forall j | 0 <= j < |p| ensures c.g.Edge(f[p[j]], h[i]) {
      assert p[j] == Nbrs(c.q.adj, i)[j];
      assert h[..i][p[j]] == h[p[j]] == f[p[j]];
    }
  }

  /** An empty candidate set kills the branch. */
  lemma {:induction false} EmptyPrefixKills(c: Problem, f: seq<nat>, p: seq<nat>, i: nat)
    requires c.Valid() && i < c.q.n && p <= Nbrs(c.q.adj, i)
    requires forall j :: 0 <= j < |p| ==> p[j] < |f|
    requires Candidates(c.g, f, p) == {}
    ensures Extending(c, f) == {}
  {
    forall h ensures h !in Extending(c, f) {
      MatchesPass(c, f, p, i, h);
    }
  }

  lemma {:induction false} MatchesPass(c: Problem, f: seq<nat>, p: seq<nat>, i: nat, h: seq<nat>)
    requires c.Valid() && i < c.q.n && p <= Nbrs(c.q.adj, i)
    requires forall j :: 0 <= j < |p| ==> p[j] < |f|
    ensures h in Extending(c, f) ==> h[i] in Candidates(c.g, f, p)
  {
    if h in Extending(c, f) {
      MatchPasses(c, f, p, i, h);
    }
  }
}
