/** From the edge list to sorted compressed rows. */
module CsrBuild {
  import opened Patterns
  import opened Ir
  import opened EdgeRanges
  import opened GraphConversion

  predicate PairLess(a: Pair, b: Pair) {
    a.0 < b.0 || (a.0 == b.0 && a.1 < b.1)
  }

  ghost predicate PairSorted(s: seq<Pair>) {
    forall i, j :: 0 <= i < j < |s| ==> PairLess(s[i], s[j])
  }

  // ----- sort and unique -----

  lemma {:induction false} InsertedPair(s: seq<Pair>, k: nat, e: Pair)
    requires PairSorted(s) && k <= |s| && (forall i :: 0 <= i < k ==> PairLess(s[i], e))
    requires k < |s| ==> !PairLess(s[k], e) && s[k] != e
    ensures PairSorted(s[..k] + [e] + s[k..])
    ensures forall x :: x in s[..k] + [e] + s[k..] <==> x in s || x == e
  {
    assert s == s[..k] + s[k..];
    var r := s[..k] + [e] + s[k..];
    forall i, j | 0 <= i < j < |r| ensures PairLess(r[i], r[j]) {
      assert r[i] == if i < k then s[i] else if i == k then e else s[i - 1];
      assert r[j] == if j < k then s[j] else if j == k then e else s[j - 1];
    }
  }

  method InsertPair(s: seq<Pair>, e: Pair) returns (r: seq<Pair>)
    requires PairSorted(s)
    ensures PairSorted(r) && forall x :: x in r <==> x in s || x == e
  {
    var k := 0;
    while k < |s| && PairLess(s[k], e)
      invariant 0 <= k <= |s| && forall i :: 0 <= i < k ==> PairLess(s[i], e)
    {
      k := k + 1;
    }
    if k < |s| && s[k] == e {
      return s;
    }
    InsertedPair(s, k, e);
    r := s[..k] + [e] + s[k..];
  }

  method SortUnique(edges: seq<Pair>) returns (el: seq<Pair>)
    ensures PairSorted(el) && forall x :: x in el <==> x in edges
  {
    el := [];
    for k := 0 to |edges|
      invariant PairSorted(el) && forall x :: x in el <==> x in edges[..k]
    {
      assert edges[..k + 1] == edges[..k] + [edges[k]];
      el := InsertPair(el, edges[k]);
    }
    assert edges[..|edges|] == edges;
  }

  // ----- rows -----

  /** How many of the pairs start below v. */
  ghost function StartsBelow(el: seq<Pair>, v: nat): (n: nat)
    ensures n <= |el|
  {
    if |el| == 0 then 0 else StartsBelow(el[..|el| - 1], v) + if el[|el| - 1].0 < v then 1 else 0
  }

  lemma {:induction false} StartsInFront(el: seq<Pair>, v: nat)
    requires PairSorted(el)
    ensures forall i :: 0 <= i < |el| ==> (i < StartsBelow(el, v) <==> el[i].0 < v)
  {
    if |el| > 0 {
      var n := |el| - 1;
      StartsInFront(el[..n], v);
      forall i | 0 <= i < n ensures el[..n][i] == el[i] && PairLess(el[i], el[n]) {}
      if el[n].0 < v && n > 0 {
        assert el[..n][n - 1] == el[n - 1] && el[n - 1].0 < v;
        assert n - 1 < StartsBelow(el[..n], v);
      }
    }
  }

  lemma {:induction false} StartsMonotone(el: seq<Pair>, v: nat)
    ensures StartsBelow(el, v) <= StartsBelow(el, v + 1)
    ensures StartsBelow(el, 0) == 0
    ensures (forall i :: 0 <= i < |el| ==> el[i].0 < v) ==> StartsBelow(el, v) == |el|
  {
    if |el| > 0 {
      StartsMonotone(el[..|el| - 1], v);
    }
  }

  /** degrees[v] counts the pairs that start at v. */
  ghost predicate Degrees(el: seq<Pair>, degrees: seq<nat>) {
    forall v :: 0 <= v < |degrees| ==> degrees[v] == StartsBelow(el, v + 1) - StartsBelow(el, v)
  }

  lemma {:induction false} DegreeStep(el: seq<Pair>, e: Pair, degrees: seq<nat>)
    requires Degrees(el, degrees) && e.0 < |degrees|
    ensures Degrees(el + [e], degrees[e.0 := degrees[e.0] + 1])
  {
    var more, counts := el + [e], degrees[e.0 := degrees[e.0] + 1];
    assert more[..|el|] == el && more[|el|] == e;
    forall v | 0 <= v < |counts| ensures counts[v] == StartsBelow(more, v + 1) - StartsBelow(more, v) {
      assert degrees[v] == StartsBelow(el, v + 1) - StartsBelow(el, v);
    }
  }

  method CountDegrees(el: seq<Pair>, n: nat) returns (indices: seq<nat>, degrees: seq<nat>)
    requires forall i :: 0 <= i < |el| ==> el[i].0 < n
    ensures |indices| == |el| && forall i :: 0 <= i < |el| ==> indices[i] == el[i].1
    ensures |degrees| == n && Degrees(el, degrees)
  {
    hide Degrees;
    indices := [];
    degrees := seq(n, _ => 0);
    NoDegrees(degrees);
    for i := 0 to |el|
      invariant |indices| == i && forall k :: 0 <= k < i ==> indices[k] == el[k].1
      invariant |degrees| == n && Degrees(el[..i], degrees)
    {
      DegreeStep(el[..i], el[i], degrees);
      assert el[..i + 1] == el[..i] + [el[i]];
      indices := indices + [el[i].1];
      degrees := degrees[el[i].0 := degrees[el[i].0] + 1];
    }
    assert el[..|el|] == el;
  }

  lemma {:induction false} NoDegrees(degrees: seq<nat>)
    requires forall v :: 0 <= v < |degrees| ==> degrees[v] == 0
    ensures Degrees([], degrees)
  {
  }

  /** parallel_prefix_sum. */
  method PrefixSum(vec: seq<nat>) returns (res: seq<nat>)
    ensures |res| == |vec| + 1 && res[0] == 0
    ensures forall i :: 0 <= i < |vec| ==> res[i + 1] == res[i] + vec[i]
  {
    res := [0];
    for i := 0 to |vec|
      invariant |res| == i + 1 && res[0] == 0
      invariant forall k :: 0 <= k < i ==> res[k + 1] == res[k] + vec[k]
    {
      res := res + [res[i] + vec[i]];
    }
  }

  lemma {:induction false} PrefixIsStarts(el: seq<Pair>, degrees: seq<nat>, indptr: seq<nat>, v: nat)
    requires Degrees(el, degrees) && |indptr| == |degrees| + 1 && indptr[0] == 0 && v <= |degrees|
    requires forall i :: 0 <= i < |degrees| ==> indptr[i + 1] == indptr[i] + degrees[i]
    ensures indptr[v] == StartsBelow(el, v)
  {
    StartsMonotone(el, 0);
    if v > 0 {
      PrefixIsStarts(el, degrees, indptr, v - 1);
      assert indptr[v - 1 + 1] == indptr[v - 1] + degrees[v - 1];
    }
  }

  /** indptr and indices hold the sorted pairs row by row. */
  ghost predicate Built(el: seq<Pair>, n: nat, indptr: seq<nat>, indices: seq<nat>) {
    && PairSorted(el) && |indices| == |el| && |indptr| == n + 1
    && (forall i :: 0 <= i < |el| ==> el[i].0 < n && indices[i] == el[i].1)
    && (forall v :: 0 <= v <= n ==> indptr[v] == StartsBelow(el, v))
  }

  lemma {:induction false} RowBounds(el: seq<Pair>, n: nat, indptr: seq<nat>, indices: seq<nat>, v: nat)
    requires Built(el, n, indptr, indices) && v < n
    ensures indptr[v] <= indptr[v + 1] <= |indices|
    ensures forall i :: indptr[v] <= i < indptr[v + 1] ==> el[i].0 == v
    ensures forall i :: 0 <= i < |el| && el[i].0 == v ==> indptr[v] <= i < indptr[v + 1]
  {
    StartsMonotone(el, v);
    StartsInFront(el, v);
    StartsInFront(el, v + 1);
  }

  ghost function Row(n: nat, indptr: seq<nat>, indices: seq<nat>, v: nat): seq<nat>
  {
    if v < n && |indptr| == n + 1 && indptr[v] <= indptr[v + 1] <= |indices| then indices[indptr[v]..indptr[v + 1]] else []
  }

  ghost function GraphOf(n: nat, indptr: seq<nat>, indices: seq<nat>): (g: Graph)
    ensures |g.adj| == n
  {
    Graph(seq(n, v requires 0 <= v < n => Row(n, indptr, indices, v)))
  }

  /** The rows are the pairs. */
  lemma {:induction false} RowEdges(el: seq<Pair>, n: nat, indptr: seq<nat>, indices: seq<nat>, u: nat, v: nat)
    requires Built(el, n, indptr, indices)
    ensures GraphOf(n, indptr, indices).Edge(u, v) <==> (u, v) in el
  {
    hide StartsBelow, PairSorted;
    if u < n {
      RowBounds(el, n, indptr, indices, u);
      var row := Row(n, indptr, indices, u);
      if v in row {
        var k :| 0 <= k < |row| && row[k] == v;
        assert el[indptr[u] + k] == (u, v);
      }
      if (u, v) in el {
        var i :| 0 <= i < |el| && el[i] == (u, v);
        assert row[i - indptr[u]] == v;
      }
    }
    if (u, v) in el {
      var i :| 0 <= i < |el| && el[i] == (u, v);
    }
  }

  lemma {:induction false} RowSorted(el: seq<Pair>, n: nat, indptr: seq<nat>, indices: seq<nat>, v: nat)
    requires Built(el, n, indptr, indices) && v < n
    ensures Sorted(Row(n, indptr, indices, v))
  {
    RowBounds(el, n, indptr, indices, v);
    var row := Row(n, indptr, indices, v);
    forall i, j | 0 <= i < j < |row| ensures row[i] < row[j] {
      assert PairLess(el[indptr[v] + i], el[indptr[v] + j]);
    }
  }

  /** Symmetric, loop-free pairs in range make a valid graph. */
  lemma {:induction false} GraphIsValid(el: seq<Pair>, n: nat, indptr: seq<nat>, indices: seq<nat>)
    requires Built(el, n, indptr, indices)
    requires forall u: nat, v: nat :: (u, v) in el ==> (v, u) in el && u != v
    ensures GraphOf(n, indptr, indices).Valid()
  {
    hide Built, Row;
    var g := GraphOf(n, indptr, indices);
    forall u | 0 <= u < n ensures Sorted(g.adj[u]) {
      RowSorted(el, n, indptr, indices, u);
    }
    forall u: nat, v: nat ensures g.Edge(u, v) <==> (u, v) in el {
      RowEdges(el, n, indptr, indices, u, v);
    }
    forall u, k | 0 <= u < n && 0 <= k < |g.adj[u]| ensures g.adj[u][k] < n && g.adj[u][k] != u {
      assert g.Edge(u, g.adj[u][k]);
      assert g.Edge(g.adj[u][k], u);
    }
  }

  ghost predicate HasStart(el: seq<Pair>, v: nat) {
    exists i :: 0 <= i < |el| && el[i].0 == v
  }

  /** With every vertex on an edge, the arrays meet what the distributor asks of them. */
  lemma {:induction false} RowsAreCsr(el: seq<Pair>, n: nat, indptr: seq<nat>, indices: seq<nat>)
    requires Built(el, n, indptr, indices)
    requires forall v: nat :: v < n ==> HasStart(el, v)
    ensures Csr(indptr, indices).Valid()
  {
    var c := Csr(indptr, indices);
    StartsMonotone(el, n);
    StartsMonotone(el, 0);
    forall v | 0 <= v < n ensures indptr[v] < indptr[v + 1] {
      RowBounds(el, n, indptr, indices, v);
      assert HasStart(el, v);
      var i :| 0 <= i < |el| && el[i].0 == v;
    }
    forall u, v | 0 <= u < v < |indptr| ensures indptr[u] < indptr[v] {
      Rising(indptr, u, v);
    }
    forall v: nat, i: nat, j: nat | c.EdgeOf(v, i) && c.EdgeOf(v, j) && i < j ensures indices[i] < indices[j] {
      RowBounds(el, n, indptr, indices, v);
      assert PairLess(el[i], el[j]);
    }
  }

  lemma {:induction false} Rising(s: seq<nat>, u: nat, v: nat)
    requires u < v < |s| && forall k :: 0 <= k < |s| - 1 ==> s[k] < s[k + 1]
    ensures s[u] < s[v]
  {
    if u + 1 < v {
      Rising(s, u, v - 1);
    }
    assert s[v - 1] < s[v - 1 + 1];
  }

  // ----- the whole conversion -----

  /** All ids that occur on a proper edge, renumbered, and the edges between them. */
  ghost predicate Converted(input: seq<Pair>, idMap: seq<Option<nat>>, n: nat, g: Graph) {
    && Numbering(idMap, n) && |g.adj| == n
    && (forall x: nat :: Numbered(idMap, x) <==> IsEnd(input, x))
    && (forall u: nat, v: nat :: g.Edge(u, v) <==> HasInputEdge(input, idMap, u, v))
  }

  lemma {:induction false} InputEdgesPair(input: seq<Pair>, idMap: seq<Option<nat>>, n: nat, u: nat, v: nat)
    requires Numbering(idMap, n) && HasInputEdge(input, idMap, u, v)
    ensures HasInputEdge(input, idMap, v, u) && u != v && u < n && v < n
  {
    var k: nat :| InputEdge(input, idMap, k, u, v);
    assert InputEdge(input, idMap, k, v, u);
    var a, b := input[k].0, input[k].1;
    assert a < b || b < a;
  }

  lemma {:induction false} EveryNumberHasEdge(input: seq<Pair>, idMap: seq<Option<nat>>, n: nat, v: nat)
    requires Numbering(idMap, n) && v < n
    requires forall k :: 0 <= k < |input| && input[k].0 != input[k].1 ==> Numbered(idMap, input[k].0) && Numbered(idMap, input[k].1)
    requires forall x: nat :: Numbered(idMap, x) ==> IsEnd(input, x)
    ensures exists w: nat :: HasInputEdge(input, idMap, v, w)
  {
    assert NumberUsed(idMap, v);
    var x :| 0 <= x < |idMap| && idMap[x] == Some(v);
    assert Numbered(idMap, x);
    var k :| 0 <= k < |input| && input[k].0 != input[k].1 && (input[k].0 == x || input[k].1 == x);
    var y := if input[k].0 == x then input[k].1 else input[k].0;
    assert InputEdge(input, idMap, k, v, idMap[y].value);
    assert HasInputEdge(input, idMap, v, idMap[y].value);
  }

  /** Row v is indices[indptr[v]..indptr[v + 1]], degrees[v] entries long. */
  ghost predicate RowSpan(indptr: seq<nat>, indices: seq<nat>, degrees: seq<nat>, v: nat) {
    && v + 1 < |indptr| && v < |degrees|
    && indptr[v] <= indptr[v + 1] <= |indices| && degrees[v] == indptr[v + 1] - indptr[v]
  }

  /** For any input: sorted symmetric loop-free rows that hold exactly the renumbered edges,
      with an edge at every vertex. */
  method BuildRows(input: seq<Pair>)
    returns (n: nat, indptr: seq<nat>, indices: seq<nat>, degrees: seq<nat>, ghost idMap: seq<Option<nat>>)
    ensures |indptr| == n + 1 && |degrees| == n
    ensures forall v: nat :: v < n ==> RowSpan(indptr, indices, degrees, v)
    ensures GraphOf(n, indptr, indices).Valid() && Csr(indptr, indices).Valid()
    ensures Converted(input, idMap, n, GraphOf(n, indptr, indices))
  {
    var ids, edges;
    ids, n, edges := ReadEdges(input);
    idMap := ids;
    var el := SortUnique(edges);
    EdgesFit(input, ids, n, edges, el);
    indices, degrees := CountDegrees(el, n);
    indptr := PrefixSum(degrees);
    BuiltFrom(el, n, degrees, indptr, indices);
    Conversion(input, ids, n, edges, el, indptr, indices);
    forall v: nat | v < n ensures RowSpan(indptr, indices, degrees, v) {
      RowBounds(el, n, indptr, indices, v);
    }
  }

  lemma {:induction false} EdgesFit(input: seq<Pair>, ids: seq<Option<nat>>, n: nat, edges: seq<Pair>, el: seq<Pair>)
    requires Read(input, ids, n, edges) && forall x :: x in el <==> x in edges
    ensures forall i :: 0 <= i < |el| ==> el[i].0 < n
    ensures forall u: nat, v: nat :: (u, v) in el ==> (v, u) in el && u != v
  {
    hide HasInputEdge, Numbering;
    forall u: nat, v: nat | (u, v) in el ensures (v, u) in el && u != v && u < n {
      InputEdgesPair(input, ids, n, u, v);
    }
    forall i | 0 <= i < |el| ensures el[i].0 < n {
      assert (el[i].0, el[i].1) in el;
    }
  }

  lemma {:induction false} BuiltFrom(el: seq<Pair>, n: nat, degrees: seq<nat>, indptr: seq<nat>, indices: seq<nat>)
    requires PairSorted(el) && |degrees| == n && Degrees(el, degrees)
    requires |indices| == |el| && forall i :: 0 <= i < |el| ==> el[i].0 < n && indices[i] == el[i].1
    requires |indptr| == n + 1 && indptr[0] == 0 && forall i :: 0 <= i < n ==> indptr[i + 1] == indptr[i] + degrees[i]
    ensures Built(el, n, indptr, indices)
  {
    hide PairSorted, Degrees, StartsBelow;
    forall v | 0 <= v <= n ensures indptr[v] == StartsBelow(el, v) {
      PrefixIsStarts(el, degrees, indptr, v);
    }
  }

  lemma {:induction false} Conversion(input: seq<Pair>, ids: seq<Option<nat>>, n: nat, edges: seq<Pair>, el: seq<Pair>,
                                      indptr: seq<nat>, indices: seq<nat>)
    requires Read(input, ids, n, edges) && Built(el, n, indptr, indices) && forall x :: x in el <==> x in edges
    requires forall u: nat, v: nat :: (u, v) in el ==> (v, u) in el && u != v
    ensures GraphOf(n, indptr, indices).Valid() && Csr(indptr, indices).Valid()
    ensures Converted(input, ids, n, GraphOf(n, indptr, indices))
  {
    hide HasInputEdge, Numbering, Built, IsEnd, Csr.Valid, Graph.Valid, Graph.Edge;
    GraphIsValid(el, n, indptr, indices);
    var g := GraphOf(n, indptr, indices);
    forall u: nat, v: nat ensures g.Edge(u, v) <==> HasInputEdge(input, ids, u, v) {
      RowEdges(el, n, indptr, indices, u, v);
    }
    forall x: nat | IsEnd(input, x) ensures Numbered(ids, x) {
      EndIsNumbered(input, ids, x);
    }
    forall v: nat | v < n ensures HasStart(el, v) {
      EveryNumberHasEdge(input, ids, n, v);
      var w: nat :| HasInputEdge(input, ids, v, w);
      assert (v, w) in el;
      var i :| 0 <= i < |el| && el[i] == (v, w);
    }
    RowsAreCsr(el, n, indptr, indices);
  }

  lemma {:induction false} EndIsNumbered(input: seq<Pair>, ids: seq<Option<nat>>, x: nat)
    requires IsEnd(input, x)
    requires forall k :: 0 <= k < |input| && input[k].0 != input[k].1 ==> Numbered(ids, input[k].0) && Numbered(ids, input[k].1)
    ensures Numbered(ids, x)
  {
  }
}
