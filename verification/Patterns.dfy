/** Data graphs, pattern queries, and the matches that every stage must count. */
module Patterns {
  import opened Counting

  type Pair = (nat, nat)
  type Matrix = seq<seq<bool>>

  ghost predicate Square(m: Matrix, n: nat) {
    |m| == n && forall i :: 0 <= i < n ==> |m[i]| == n
  }

  /** A data graph in compressed rows: adj[v] lists the neighbours of v. */
  datatype Graph = Graph(adj: seq<seq<nat>>) {
    ghost predicate Edge(u: nat, v: nat) {
      u < |adj| && v in adj[u]
    }

    /** Strictly sorted, in range, loop-free and symmetric rows. */
    ghost predicate Valid() {
      && (forall u :: 0 <= u < |adj| ==> Sorted(adj[u]))
      && (forall u, k :: 0 <= u < |adj| && 0 <= k < |adj[u]| ==> adj[u][k] < |adj| && adj[u][k] != u)
      && (forall u, v :: Edge(u, v) ==> Edge(v, u))
    }
  }

  ghost predicate Sorted(s: seq<nat>) {
    forall i, j :: 0 <= i < j < |s| ==> s[i] < s[j]
  }

  /** A pattern on vertices 0..n-1; `induced` also asks for the non-edges. */
  datatype Query = Query(n: nat, adj: Matrix, induced: bool) {
    ghost predicate Valid() {
      && Square(adj, n)
      && (forall i :: 0 <= i < n ==> !adj[i][i])
      && (forall i, j :: 0 <= i < n && 0 <= j < n ==> adj[i][j] == adj[j][i])
    }
  }

  /** f maps the pattern injectively into g, keeping edges (and non-edges if induced). */
  ghost predicate Embeds(g: Graph, q: Query, f: seq<nat>)
    requires q.Valid()
  {
    && IsTuple(f, q.n, |g.adj|)
    && Injective(f)
    && forall i, j :: 0 <= i < q.n && 0 <= j < q.n && i != j ==> PairFits(g, q, f, i, j)
  }

  ghost predicate PairFits(g: Graph, q: Query, f: seq<nat>, i: nat, j: nat)
    requires q.Valid() && i < |f| && j < |f| && i < q.n && j < q.n
  {
    && (q.adj[i][j] ==> g.Edge(f[i], f[j]))
    && (q.induced && !q.adj[i][j] ==> !g.Edge(f[i], f[j]))
  }

  /** A restriction (a, b) demands id(a) > id(b). */
  ghost predicate Ordered(r: seq<Pair>, f: seq<nat>) {
    forall k :: 0 <= k < |r| ==> r[k].0 < |f| && r[k].1 < |f| && f[r[k].0] > f[r[k].1]
  }

  ghost predicate InRange(r: seq<Pair>, n: nat) {
    forall k :: 0 <= k < |r| ==> r[k].0 < n && r[k].1 < n
  }

  /** Restrictions as the search produces them: smaller vertex first. */
  ghost predicate InOrder(r: seq<Pair>, n: nat) {
    forall k :: 0 <= k < |r| ==> r[k].0 < r[k].1 < n
  }

  ghost function Matches(g: Graph, q: Query, r: seq<Pair>): (m: set<seq<nat>>)
    requires q.Valid()
    ensures forall f :: f in m <==> Embeds(g, q, f) && Ordered(r, f)
  {
    set f | f in Tuples(q.n, |g.adj|) && Embeds(g, q, f) && Ordered(r, f)
  }

  /** The complete graph on m vertices. */
  ghost function Complete(m: nat): Graph {
    Graph(seq(m, u => Others(u, m)))
  }

  ghost function Others(u: int, m: nat): (s: seq<nat>)
    ensures Sorted(s)
    ensures forall i :: 0 <= i < |s| ==> s[i] < m
    ensures forall v: nat :: v in s <==> v < m && v != u
  {
    if m == 0 then [] else if m - 1 == u then Others(u, m - 1) else Others(u, m - 1) + [m - 1]
  }
}
