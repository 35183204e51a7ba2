/** The signed count of connected labelled graphs: even minus odd number of edges. */
module SignedGraphs {
  import opened Arithmetic
  import opened Counting
  import opened Patterns
  import opened Partitions
  import opened Permutations

  ghost predicate EdgesFit(es: seq<Pair>, n: nat) {
    forall k :: 0 <= k < |es| ==> es[k].0 < n && es[k].1 < n
  }

  ghost predicate Fits(es: seq<Pair>, k: nat, part: seq<nat>) {
    k <= |es| && EdgesFit(es, |part|) && IsPartition(part)
  }

  /** Sum over the subsets of es[..k], joined on top of `part`, of the sign of
      each subset that leaves one class. */
  ghost function Signed(es: seq<Pair>, k: nat, part: seq<nat>): int
    requires Fits(es, k, part)
  {
    if k == 0 then
      if ClassCount(part) == 1 then 1 else 0
    else
      Signed(es, k - 1, part) - Signed(es, k - 1, Join(part, es[k - 1].0, es[k - 1].1))
  }

  /** One undecided edge: leave it out, or take it and flip the sign. */
  lemma {:induction false} SignedStep(es: seq<Pair>, k: nat, part: seq<nat>, a: nat, b: nat, x: int, y: int)
    requires Fits(es, k, part) && k > 0 && es[k - 1] == (a, b)
    requires Signed(es, k - 1, part) == x && Signed(es, k - 1, Join(part, a, b)) == y
    ensures Signed(es, k, part) == x - y
  {
  }

  // ----- closed form -----

  /** Contracting an undecided edge to a loop makes every subset cancel. */
  lemma {:induction false} LoopCancels(es: seq<Pair>, k: nat, part: seq<nat>, i: nat)
    requires Fits(es, k, part) && i < k
    requires part[es[i].0] == part[es[i].1]
    ensures Signed(es, k, part) == 0
    decreases k
  {
    var e := es[k - 1];
    if i == k - 1 {
      JoinCount(part, e.0, e.1);
    } else {
      LoopCancels(es, k - 1, part, i);
      LoopCancels(es, k - 1, Join(part, e.0, e.1), i);
    }
  }

  ghost predicate Avoids(es: seq<Pair>, k: nat, v: nat) {
    k <= |es| && forall i :: 0 <= i < k ==> es[i].0 < v && es[i].1 < v
  }

  ghost predicate Alone(part: seq<nat>, v: nat) {
    v < |part| && forall x :: 0 <= x < |part| ==> (part[x] == v <==> x == v)
  }

  lemma {:induction false} AloneIsTwo(part: seq<nat>, v: nat)
    requires Alone(part, v) && v > 0
    ensures ClassCount(part) >= 2
  {
    assert part[v] == v && part[0] != v;
    assert {v, part[0]} <= Elements(part);
    SubsetSize({v, part[0]}, Elements(part));
  }

  lemma {:induction false} AloneStays(part: seq<nat>, v: nat, a: nat, b: nat)
    requires IsPartition(part) && Alone(part, v) && a < v && b < v
    ensures Alone(Join(part, a, b), v)
  {
    assert part[a] <= a && part[b] <= b;
  }

  /** A vertex that no undecided edge touches stays apart. */
  lemma {:induction false} IsolatedCancels(es: seq<Pair>, k: nat, part: seq<nat>, v: nat)
    requires Fits(es, k, part) && Avoids(es, k, v) && Alone(part, v) && v > 0
    ensures Signed(es, k, part) == 0
    decreases k
  {
    if k == 0 {
      AloneIsTwo(part, v);
    } else {
      var (a, b) := es[k - 1];
      AloneStays(part, v, a, b);
      var joined := Join(part, a, b);
      IsolatedCancels(es, k - 1, part, v);
      IsolatedCancels(es, k - 1, joined, v);
    }
  }

  /** part is small with one more vertex, put in the class of u. */
  ghost predicate GluedOn(part: seq<nat>, small: seq<nat>, u: nat) {
    && u < |small| && |part| == |small| + 1
    && (forall x :: 0 <= x < |small| ==> part[x] == small[x])
    && part[|small|] == small[u]
  }

  lemma {:induction false} GluedCount(part: seq<nat>, small: seq<nat>, u: nat)
    requires GluedOn(part, small, u)
    ensures ClassCount(small) == ClassCount(part)
  {
    assert part == small + [small[u]];
    assert Elements(part) == Elements(small);
  }

  lemma {:induction false} GluedJoin(part: seq<nat>, small: seq<nat>, u: nat, a: nat, b: nat)
    requires IsPartition(part) && IsPartition(small)
    requires GluedOn(part, small, u) && a < |small| && b < |small|
    ensures GluedOn(Join(part, a, b), Join(small, a, b), u)
  {
  }

  /** A vertex glued to an earlier one no longer matters. */
  lemma {:induction false} GluedDrops(es: seq<Pair>, k: nat, part: seq<nat>, small: seq<nat>, u: nat)
    requires Fits(es, k, part) && Fits(es, k, small) && GluedOn(part, small, u)
    ensures Signed(es, k, part) == Signed(es, k, small)
    decreases k
  {
    if k == 0 {
      GluedCount(part, small, u);
    } else {
      var (a, b) := es[k - 1];
      GluedJoin(part, small, u, a, b);
      GluedDrops(es, k - 1, part, small, u);
      GluedDrops(es, k - 1, Join(part, a, b), Join(small, a, b), u);
    }
  }

  lemma {:induction false} SignedPrefix(es: seq<Pair>, fs: seq<Pair>, k: nat, part: seq<nat>)
    requires Fits(es, k, part) && Fits(fs, k, part) && es[..k] == fs[..k]
    ensures Signed(es, k, part) == Signed(fs, k, part)
    decreases k
  {
    if k > 0 {
      assert es[k - 1] == es[..k][k - 1] == fs[k - 1];
      assert es[..k - 1] == es[..k][..k - 1] == fs[..k - 1];
      SignedPrefix(es, fs, k - 1, part);
      SignedPrefix(es, fs, k - 1, Join(part, es[k - 1].0, es[k - 1].1));
    }
  }

  /** The edges (v, 0), ..., (v, j-1). */
  function Star(v: nat, j: nat): (s: seq<Pair>)
    ensures |s| == j && forall i :: 0 <= i < j ==> s[i] == (v, i)
  {
    seq(j, i => (v, i))
  }

  /** The edges of the complete graph in the order the source lists them. */
  ghost function AllEdges(n: nat): (es: seq<Pair>)
    ensures EdgesFit(es, n)
  {
    if n == 0 then [] else AllEdges(n - 1) + Star(n - 1, n - 1)
  }

  ghost function EdgeCount(n: nat): nat {
    |AllEdges(n)|
  }

  lemma {:induction false} EdgeListed(n: nat, a: nat, b: nat) returns (i: nat)
    requires b < a < n
    ensures i < EdgeCount(n) && AllEdges(n)[i] == (a, b)
    decreases n
  {
    if a == n - 1 {
      i := EdgeCount(n - 1) + b;
    } else {
      i := EdgeListed(n - 1, a, b);
    }
  }

  lemma {:induction false} EdgesSplit(n: nat)
    requires n > 0
    ensures EdgeCount(n) == EdgeCount(n - 1) + n - 1
    ensures AllEdges(n)[..EdgeCount(n - 1)] == AllEdges(n - 1)
    ensures Avoids(AllEdges(n), EdgeCount(n - 1), n - 1)
    ensures forall j :: EdgeCount(n - 1) <= j < EdgeCount(n) ==> AllEdges(n)[j] == (n - 1, j - EdgeCount(n - 1))
    ensures forall i :: 0 <= i < EdgeCount(n - 1) ==> AllEdges(n)[i] == AllEdges(n - 1)[i]
  {
  }

  /** The count for the complete graph on n vertices. */
  ghost function SignedCount(n: nat): int {
    Signed(AllEdges(n), EdgeCount(n), Discrete(n))
  }

  /** es[m..] is the star of the last vertex, which es[..m] does not touch. */
  ghost predicate StarTail(es: seq<Pair>, m: nat, n: nat) {
    && n > 1 && |es| == m + n - 1 && EdgesFit(es, n)
    && (forall j :: m <= j < |es| ==> es[j] == (n - 1, j - m))
  }

  lemma {:induction false} ParallelCancels(es: seq<Pair>, m: nat, n: nat, u: nat, b: nat)
    requires StarTail(es, m, n) && b < u < n - 1 && (u, b) in es[..m]
    ensures Signed(es, m + b, Join(Join(Discrete(n), n - 1, u), n - 1, b)) == 0
  {
    hide Signed;
    var glued := Join(Discrete(n), n - 1, u);
    var both := Join(glued, n - 1, b);
    assert glued[n - 1] == u && glued[u] == u && glued[b] == b;
    var i :| 0 <= i < m && es[i] == (u, b);
    LoopCancels(es, m + b, both, i);
  }

  /** With the last vertex glued to u, its other edges are parallel to edges among
      the rest, and parallel edges cancel. */
  lemma {:induction false} ParallelDrop(es: seq<Pair>, m: nat, n: nat, u: nat, j: nat, c: int)
    requires StarTail(es, m, n) && j <= u < n - 1
    requires forall b: nat :: b < u ==> (u, b) in es[..m]
    requires Signed(es, m, Join(Discrete(n), n - 1, u)) == c
    ensures Signed(es, m + j, Join(Discrete(n), n - 1, u)) == c
    decreases j
  {
    hide Signed, Join, EdgesFit;
    if j > 0 {
      ParallelDrop(es, m, n, u, j - 1, c);
      ParallelCancels(es, m, n, u, j - 1);
      SignedStep(es, m + j, Join(Discrete(n), n - 1, u), n - 1, j - 1, c, 0);
    }
  }

  /** Deleting or contracting the last vertex's edges one at a time. */
  lemma {:induction false} StarExpands(es: seq<Pair>, m: nat, n: nat, j: nat, c: int)
    requires StarTail(es, m, n) && j <= n - 1
    requires Signed(es, m, Discrete(n)) == 0
    requires forall u: nat {:trigger Join(Discrete(n), n - 1, u)} :: u < n - 1 ==>
      Signed(es, m + u, Join(Discrete(n), n - 1, u)) == c
    ensures Signed(es, m + j, Discrete(n)) == Minus(j, c)
    decreases j
  {
    hide Signed, Join, EdgesFit;
    if j > 0 {
      StarExpands(es, m, n, j - 1, c);
      SignedStep(es, m + j, Discrete(n), n - 1, j - 1, Minus(j - 1, c), c);
    }
  }

  lemma {:induction false} GluedBase(n: nat, u: nat)
    requires n > 1 && u < n - 1
    ensures EdgeCount(n - 1) <= EdgeCount(n)
    ensures Signed(AllEdges(n), EdgeCount(n - 1), Join(Discrete(n), n - 1, u)) == SignedCount(n - 1)
  {
    EdgesSplit(n);
    var glued := Join(Discrete(n), n - 1, u);
    SignedPrefix(AllEdges(n), AllEdges(n - 1), EdgeCount(n - 1), glued);
    GluedDrops(AllEdges(n - 1), EdgeCount(n - 1), glued, Discrete(n - 1), u);
  }

  lemma {:induction false} GluedSide(n: nat, u: nat)
    requires n > 1 && u < n - 1
    ensures EdgeCount(n - 1) + u <= EdgeCount(n)
    ensures Signed(AllEdges(n), EdgeCount(n - 1) + u, Join(Discrete(n), n - 1, u)) == SignedCount(n - 1)
  {
    hide Signed, Join;
    var es, m := AllEdges(n), EdgeCount(n - 1);
    EdgesSplit(n);
    GluedBase(n, u);
    forall b: nat | b < u ensures (u, b) in es[..m] {
      var i := EdgeListed(n - 1, u, b);
    }
    ParallelDrop(es, m, n, u, u, SignedCount(n - 1));
  }

  lemma {:induction false} LastVertexExpands(n: nat)
    requires n > 1
    ensures SignedCount(n) == Times(-(n - 1), SignedCount(n - 1))
  {
    hide Signed, Join, AllEdges;
    var es, m, c := AllEdges(n), EdgeCount(n - 1), SignedCount(n - 1);
    EdgesSplit(n);
    IsolatedCancels(es, m, Discrete(n), n - 1);
    forall u: nat {:trigger Join(Discrete(n), n - 1, u)} | u < n - 1
      ensures Signed(es, m + u, Join(Discrete(n), n - 1, u)) == c
    {
      GluedSide(n, u);
    }
    StarExpands(es, m, n, n - 1, c);
    MinusIsTimes(n - 1, c);
  }

  /** c taken away j times. */
  ghost function Minus(j: nat, c: int): int {
    if j == 0 then 0 else Minus(j - 1, c) - c
  }

  lemma {:induction false} MinusIsTimes(j: nat, c: int)
    ensures Minus(j, c) == Times(-(j as int), c)
  {
    if j > 0 {
      MinusIsTimes(j - 1, c);
      assert (-(j as int)) * c == (-((j - 1) as int)) * c - c;
    }
  }

  /** The signed count satisfies c(n) = -(n-1) c(n-1). */
  ghost function Mu(n: nat): int
    requires n > 0
  {
    if n == 1 then 1 else Times(-(n - 1), Mu(n - 1))
  }

  lemma {:induction false} MuStep(k: int, f: int)
    ensures Times(-k, -f) == k * f && Times(-k, f) == -(k * f)
  {
  }

  lemma {:induction false} MuClosedForm(n: nat)
    requires n > 0
    ensures Mu(n) == if n % 2 == 1 then Factorial(n - 1) else -(Factorial(n - 1) as int)
  {
    hide Times;
    if n > 1 {
      MuClosedForm(n - 1);
      MuStep(n - 1, Factorial(n - 2));
    }
  }

  /** For every n, connected graphs with an even number of edges minus those with
      an odd number make (-1)^(n-1) (n-1)!. */
  lemma {:induction false} ConnectedCount(n: nat)
    requires n > 0
    ensures SignedCount(n) == Mu(n)
  {
    if n == 1 {
      DiscreteCount(1);
    } else {
      ConnectedCount(n - 1);
      LastVertexExpands(n);
    }
  }
}
