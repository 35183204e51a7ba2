/** restricts_to_str: one ascending pass closes the restrictions transitively. */
module Closure {
  import opened Patterns

  /** A chain of restrictions leads from a down to b. */
  ghost predicate Reach(pairs: seq<Pair>, n: nat, a: nat, b: nat)
    requires InOrder(pairs, n)
    decreases b
  {
    exists k :: 0 <= k < |pairs| && Link(pairs, n, a, b, k)
  }

  /** Pair k is the last link of such a chain. */
  ghost predicate Link(pairs: seq<Pair>, n: nat, a: nat, b: nat, k: nat)
    requires InOrder(pairs, n) && k < |pairs|
    decreases b, 0
  {
    pairs[k].1 == b && (pairs[k].0 == a || Reach(pairs, n, a, pairs[k].0))
  }

  lemma {:induction false} LastLink(pairs: seq<Pair>, n: nat, a: nat, b: nat) returns (k: nat)
    requires InOrder(pairs, n) && Reach(pairs, n, a, b)
    ensures k < |pairs| && Link(pairs, n, a, b, k)
  {
    k :| 0 <= k < |pairs| && Link(pairs, n, a, b, k);
  }

  lemma {:induction false} PairReaches(pairs: seq<Pair>, n: nat, k: nat)
    requires InOrder(pairs, n) && k < |pairs|
    ensures Reach(pairs, n, pairs[k].0, pairs[k].1)
  {
    assert Link(pairs, n, pairs[k].0, pairs[k].1, k);
  }

  lemma {:induction false} ReachTransitive(pairs: seq<Pair>, n: nat, a: nat, b: nat, c: nat)
    requires InOrder(pairs, n) && Reach(pairs, n, a, b) && Reach(pairs, n, b, c)
    ensures Reach(pairs, n, a, c)
    decreases c
  {
    var k :| 0 <= k < |pairs| && Link(pairs, n, b, c, k);
    if pairs[k].0 != b {
      ReachTransitive(pairs, n, a, b, pairs[k].0);
    }
    assert Link(pairs, n, a, c, k);
  }

  lemma {:induction false} ReachInRange(pairs: seq<Pair>, n: nat, a: nat, b: nat)
    requires InOrder(pairs, n) && Reach(pairs, n, a, b)
    ensures a < b < n
    decreases b
  {
    var k :| 0 <= k < |pairs| && Link(pairs, n, a, b, k);
    if pairs[k].0 != a {
      ReachInRange(pairs, n, a, pairs[k].0);
    }
  }

  /** A chain of obeyed restrictions is an obeyed restriction. */
  lemma {:induction false} ReachOrders(pairs: seq<Pair>, n: nat, f: seq<nat>, a: nat, b: nat)
    requires InOrder(pairs, n) && |f| == n && Ordered(pairs, f) && Reach(pairs, n, a, b)
    ensures a < n && b < n && f[a] > f[b]
    decreases b
  {
    var k :| 0 <= k < |pairs| && Link(pairs, n, a, b, k);
    if pairs[k].0 != a {
      ReachOrders(pairs, n, f, a, pairs[k].0);
    }
  }

  /** Chains whose last link starts at a directly, or below vertex `done`. */
  ghost predicate ReachVia(pairs: seq<Pair>, n: nat, a: nat, b: nat, done: nat)
    requires InOrder(pairs, n)
  {
    exists k :: 0 <= k < |pairs| && pairs[k].1 == b && (pairs[k].0 == a || (pairs[k].0 < done && Link(pairs, n, a, b, k)))
  }

  lemma {:induction false} ViaEnough(pairs: seq<Pair>, n: nat, a: nat, b: nat, done: nat)
    requires InOrder(pairs, n) && b <= done
    ensures ReachVia(pairs, n, a, b, done) <==> Reach(pairs, n, a, b)
  {
    if Reach(pairs, n, a, b) {
      var k := LastLink(pairs, n, a, b);
    }
    if ReachVia(pairs, n, a, b, done) {
      var k :| 0 <= k < |pairs| && pairs[k].1 == b && (pairs[k].0 == a || (pairs[k].0 < done && Link(pairs, n, a, b, k)));
      assert Link(pairs, n, a, b, k);
    }
  }

  /** The chains ending in one of the first m pairs that start at v1. */
  ghost predicate ViaPair(pairs: seq<Pair>, n: nat, a: nat, b: nat, v1: nat, m: nat)
    requires InOrder(pairs, n) && m <= |pairs|
  {
    exists k :: 0 <= k < m && pairs[k].0 == v1 && pairs[k].1 == b && Reach(pairs, n, a, v1)
  }

  lemma {:induction false} ViaNext(pairs: seq<Pair>, n: nat, a: nat, b: nat, v1: nat)
    requires InOrder(pairs, n)
    ensures ReachVia(pairs, n, a, b, v1 + 1)
      <==> ReachVia(pairs, n, a, b, v1) || ViaPair(pairs, n, a, b, v1, |pairs|)
  {
    if ReachVia(pairs, n, a, b, v1 + 1) && !ReachVia(pairs, n, a, b, v1) {
      var k :| 0 <= k < |pairs| && pairs[k].1 == b && (pairs[k].0 == a || (pairs[k].0 < v1 + 1 && Link(pairs, n, a, b, k)));
      assert pairs[k].0 == v1;
    }
    if ViaPair(pairs, n, a, b, v1, |pairs|) {
      var k :| 0 <= k < |pairs| && pairs[k].0 == v1 && pairs[k].1 == b && Reach(pairs, n, a, v1);
      assert Link(pairs, n, a, b, k);
    }
    if ReachVia(pairs, n, a, b, v1) {
      var k :| 0 <= k < |pairs| && pairs[k].1 == b && (pairs[k].0 == a || (pairs[k].0 < v1 && Link(pairs, n, a, b, k)));
    }
  }

  function Marked(m: Matrix, i: nat, j: nat): (r: Matrix)
    requires i < |m| && j < |m[i]|
    ensures |r| == |m|
  {
    m[i := m[i][j := true]]
  }

  lemma {:induction false} MarkOne(m: Matrix, n: nat, i: nat, j: nat)
    requires Square(m, n) && i < n && j < n
    ensures Square(Marked(m, i, j), n)
    ensures forall b, a :: 0 <= b < n && 0 <= a < n ==> (Marked(m, i, j)[b][a] <==> m[b][a] || (b == i && a == j))
  {
  }

  /** Row b also holds the marks of `above`. */
  ghost predicate RowMarked(m0: Matrix, m: Matrix, n: nat, b: nat, above: seq<nat>)
    requires Square(m0, n) && Square(m, n)
  {
    forall c: nat, a: nat {:trigger m[c][a]} {:trigger m0[c][a]} :: c < n && a < n ==>
      (m[c][a] <==> m0[c][a] || (c == b && a in above))
  }

  /** mat holds exactly the closure. */
  ghost predicate Closed(mat: Matrix, pairs: seq<Pair>, n: nat)
    requires Square(mat, n) && InOrder(pairs, n)
  {
    forall b: nat, a: nat :: b < n && a < n ==> (mat[b][a] <==> Reach(pairs, n, a, b))
  }

  ghost predicate ClosedBelow(mat: Matrix, pairs: seq<Pair>, n: nat, done: nat)
    requires Square(mat, n) && InOrder(pairs, n)
  {
    forall b: nat, a: nat :: b < n && a < n ==> (mat[b][a] <==> ReachVia(pairs, n, a, b, done))
  }

  /** Direct pairs only, among the first k. */
  ghost predicate Direct(mat: Matrix, pairs: seq<Pair>, n: nat, k: nat)
    requires Square(mat, n) && k <= |pairs|
  {
    forall b: nat, a: nat :: b < n && a < n ==> (mat[b][a] <==> (a, b) in pairs[..k])
  }

  lemma {:induction false} DirectIsStart(mat: Matrix, pairs: seq<Pair>, n: nat)
    requires Square(mat, n) && InOrder(pairs, n) && Direct(mat, pairs, n, |pairs|)
    ensures ClosedBelow(mat, pairs, n, 0)
  {
    assert pairs[..|pairs|] == pairs;
    forall b: nat, a: nat | b < n && a < n ensures (a, b) in pairs <==> ReachVia(pairs, n, a, b, 0) {
      if (a, b) in pairs {
        var k :| 0 <= k < |pairs| && pairs[k] == (a, b);
      }
    }
  }

  method GreaterThan(mat: Matrix, n: nat, v1: nat) returns (above: seq<nat>)
    requires Square(mat, n) && v1 < n
    ensures forall a: nat :: a in above <==> a < n && mat[v1][a]
  {
    above := [];
    for a := 0 to n
      invariant forall x: nat :: x in above <==> x < a && mat[v1][x]
    {
      if mat[v1][a] {
        above := above + [a];
      }
    }
  }

  method MarkRow(mat0: Matrix, n: nat, b: nat, above: seq<nat>) returns (mat: Matrix)
    requires Square(mat0, n) && b < n && forall a :: a in above ==> a < n
    ensures Square(mat, n)
    ensures RowMarked(mat0, mat, n, b, above)
  {
    mat := mat0;
    for t := 0 to |above|
      invariant Square(mat, n)
      invariant RowMarked(mat0, mat, n, b, above[..t])
    {
      assert above[t] in above;
      assert above[..t + 1] == above[..t] + [above[t]];
      MarkOne(mat, n, b, above[t]);
      ghost var before := mat;
      mat := Marked(mat, b, above[t]);
      forall c: nat, a: nat | c < n && a < n ensures mat[c][a] <==> mat0[c][a] || (c == b && a in above[..t + 1]) {
        assert before[c][a] <==> mat0[c][a] || (c == b && a in above[..t]);
      }
    }
    assert above[..|above|] == above;
  }

  /** After the pairs below k from v1 have been followed. */
  ghost predicate Followed(mat: Matrix, pairs: seq<Pair>, n: nat, v1: nat, k: nat)
    requires Square(mat, n) && InOrder(pairs, n) && k <= |pairs|
  {
    forall b: nat, a: nat :: b < n && a < n ==>
      (mat[b][a] <==> ReachVia(pairs, n, a, b, v1) || ViaPair(pairs, n, a, b, v1, k))
  }

  lemma {:induction false} FollowOne(mat: Matrix, mat': Matrix, pairs: seq<Pair>, n: nat, v1: nat, k: nat, above: seq<nat>)
    requires Square(mat, n) && Square(mat', n) && InOrder(pairs, n) && k < |pairs| && v1 < n
    requires Followed(mat, pairs, n, v1, k)
    requires forall a: nat :: a in above <==> a < n && Reach(pairs, n, a, v1)
    requires RowMarked(mat, mat', n, pairs[k].1, if pairs[k].0 == v1 then above else [])
    ensures Followed(mat', pairs, n, v1, k + 1)
  {
    hide Reach, ReachVia;
    forall b: nat, a: nat | b < n && a < n
      ensures ViaPair(pairs, n, a, b, v1, k + 1)
        <==> ViaPair(pairs, n, a, b, v1, k) || (pairs[k].0 == v1 && pairs[k].1 == b && Reach(pairs, n, a, v1))
    {
    }
    forall b: nat, a: nat | b < n && a < n
      ensures mat'[b][a] <==> ReachVia(pairs, n, a, b, v1) || ViaPair(pairs, n, a, b, v1, k + 1)
    {
      assert mat[b][a] <==> ReachVia(pairs, n, a, b, v1) || ViaPair(pairs, n, a, b, v1, k);
      assert mat'[b][a] <==> mat[b][a] || (b == pairs[k].1 && pairs[k].0 == v1 && a in above);
    }
  }

  method RestrictsToMatrix(pairs: seq<Pair>, n: nat) returns (mat: Matrix)
    requires InOrder(pairs, n)
    ensures Square(mat, n) && Closed(mat, pairs, n)
  {
    hide Reach, ReachVia, ViaPair, ClosedBelow, Followed, Direct;
    mat := DirectMatrix(pairs, n);
    DirectIsStart(mat, pairs, n);
    for v1 := 0 to n
      invariant Square(mat, n) && ClosedBelow(mat, pairs, n, v1)
    {
      var above := GreaterThan(mat, n, v1);
      RowComplete(mat, pairs, n, v1, above);
      FollowNone(mat, pairs, n, v1);
      for k := 0 to |pairs|
        invariant Square(mat, n) && Followed(mat, pairs, n, v1, k)
      {
        var before := mat;
        if pairs[k].0 == v1 {
          mat := MarkRow(mat, n, pairs[k].1, above);
        }
        FollowOne(before, mat, pairs, n, v1, k, above);
      }
      FollowAll(mat, pairs, n, v1);
    }
    CloseAll(mat, pairs, n);
  }

  method DirectMatrix(pairs: seq<Pair>, n: nat) returns (mat: Matrix)
    requires InOrder(pairs, n)
    ensures Square(mat, n) && Direct(mat, pairs, n, |pairs|)
  {
    mat := seq(n, _ => seq(n, _ => false));
    for k := 0 to |pairs|
      invariant Square(mat, n) && Direct(mat, pairs, n, k)
    {
      assert pairs[..k + 1] == pairs[..k] + [pairs[k]];
      mat := Marked(mat, pairs[k].1, pairs[k].0);
    }
  }

  /** Rows up to v1 are final when v1 is reached. */
  lemma {:induction false} RowComplete(mat: Matrix, pairs: seq<Pair>, n: nat, v1: nat, above: seq<nat>)
    requires Square(mat, n) && InOrder(pairs, n) && v1 < n && ClosedBelow(mat, pairs, n, v1)
    requires forall a: nat :: a in above <==> a < n && mat[v1][a]
    ensures forall a: nat :: a in above <==> a < n && Reach(pairs, n, a, v1)
  {
    hide Reach, ReachVia;
    forall a: nat | a < n ensures mat[v1][a] <==> Reach(pairs, n, a, v1) {
      ViaEnough(pairs, n, a, v1, v1);
    }
  }

  lemma {:induction false} FollowNone(mat: Matrix, pairs: seq<Pair>, n: nat, v1: nat)
    requires Square(mat, n) && InOrder(pairs, n) && ClosedBelow(mat, pairs, n, v1)
    ensures Followed(mat, pairs, n, v1, 0)
  {
    hide Reach, ReachVia;
  }

  lemma {:induction false} FollowAll(mat: Matrix, pairs: seq<Pair>, n: nat, v1: nat)
    requires Square(mat, n) && InOrder(pairs, n) && Followed(mat, pairs, n, v1, |pairs|)
    ensures ClosedBelow(mat, pairs, n, v1 + 1)
  {
    hide Reach, ReachVia, ViaPair;
    forall b: nat, a: nat | b < n && a < n ensures mat[b][a] <==> ReachVia(pairs, n, a, b, v1 + 1) {
      ViaNext(pairs, n, a, b, v1);
    }
  }

  lemma {:induction false} CloseAll(mat: Matrix, pairs: seq<Pair>, n: nat)
    requires Square(mat, n) && InOrder(pairs, n) && ClosedBelow(mat, pairs, n, n)
    ensures Closed(mat, pairs, n)
  {
    hide Reach, ReachVia;
    forall b: nat, a: nat | b < n && a < n ensures mat[b][a] <==> Reach(pairs, n, a, b) {
      ViaEnough(pairs, n, a, b, n);
    }
  }

  /** An assignment obeys the closed matrix: smaller id wherever a mark is set. */
  ghost predicate ObeysMatrix(mat: Matrix, f: seq<nat>)
    requires Square(mat, |f|)
  {
    forall b, a :: 0 <= b < |f| && 0 <= a < |f| && mat[b][a] ==> f[b] < f[a]
  }

  /** Closing adds no condition and loses none. */
  lemma {:induction false} ClosureKeepsMeaning(mat: Matrix, pairs: seq<Pair>, f: seq<nat>)
    requires InOrder(pairs, |f|) && Square(mat, |f|) && Closed(mat, pairs, |f|)
    ensures ObeysMatrix(mat, f) <==> Ordered(pairs, f)
  {
    hide Reach;
    if Ordered(pairs, f) {
      forall b, a | 0 <= b < |f| && 0 <= a < |f| && mat[b][a] ensures f[b] < f[a] {
        ReachOrders(pairs, |f|, f, a, b);
      }
    }
    if ObeysMatrix(mat, f) {
      forall k | 0 <= k < |pairs| ensures f[pairs[k].0] > f[pairs[k].1] {
        PairReaches(pairs, |f|, k);
        assert mat[pairs[k].1][pairs[k].0];
      }
    }
  }
}
