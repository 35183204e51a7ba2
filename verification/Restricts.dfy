/** GraphPi's search for restriction sets: discard an automorphism as soon as the
    restrictions and their image under it are contradictory. */
module Restricts {
  import opened Counting
  import opened Patterns
  import opened Symmetry
  import opened PatternGraph

  /** r together with its image under the permutation p. */
  ghost function Moved(r: seq<Pair>, p: seq<nat>): (m: seq<Pair>)
    requires InRange(r, |p|)
    ensures |m| == |r|
    ensures forall k :: 0 <= k < |r| ==> m[k] == (p[r[k].0], p[r[k].1])
  {
    seq(|r|, k requires 0 <= k < |r| => (p[r[k].0], p[r[k].1]))
  }

  ghost predicate Satisfiable(r: seq<Pair>, n: nat) {
    exists f :: |f| == n && Ordered(r, f)
  }

  /** No assignment obeys r both before and after p. */
  ghost predicate RuledOut(r: seq<Pair>, p: seq<nat>)
    requires InRange(r, |p|)
  {
    !Satisfiable(r + Moved(r, p), |p|)
  }

  ghost predicate AllOthersRuledOut(q: Query, r: seq<Pair>)
    requires q.Valid()
  {
    InRange(r, q.n) && forall p :: p in Automorphisms(q) && p != Identity(q.n) ==> RuledOut(r, p)
  }

  /** Acyclicity elimination: when every automorphism but the identity is ruled
      out, no assignment has two images that obey r. */
  lemma {:induction false} EliminationKeepsAtMostOne(q: Query, r: seq<Pair>)
    requires q.Valid() && AllOthersRuledOut(q, r)
    ensures AtMostOneImage(q, r)
  {
    forall f, a, b | |f| == q.n && Injective(f) && a in Automorphisms(q) && b in Automorphisms(q)
      && Ordered(r, Compose(f, a)) && Ordered(r, Compose(f, b))
      ensures a == b
    {
      var p := ImagesDiffer(q, f, a, b);
      BothOrdered(r, Compose(f, a), p);
    }
  }

  lemma {:induction false} BothOrdered(r: seq<Pair>, g: seq<nat>, p: seq<nat>)
    requires IsPerm(p, |g|) && InRange(r, |g|)
    requires Ordered(r, g) && Ordered(r, Compose(g, p))
    ensures !RuledOut(r, p)
  {
    var h := Compose(g, p);
    var both := r + Moved(r, p);
    forall k | 0 <= k < |both| ensures both[k].0 < |g| && both[k].1 < |g| && g[both[k].0] > g[both[k].1] {
      if k >= |r| {
        var e := r[k - |r|];
        assert h[e.0] > h[e.1];
      }
    }
    assert Ordered(both, g);
  }

  lemma {:induction false} FewerIsSatisfiable(r: seq<Pair>, e: Pair, p: seq<nat>)
    requires InRange(r, |p|) && e.0 < |p| && e.1 < |p|
    requires Satisfiable((r + [e]) + Moved(r + [e], p), |p|)
    ensures Satisfiable(r + Moved(r, p), |p|)
  {
    var big := (r + [e]) + Moved(r + [e], p);
    var f :| |f| == |p| && Ordered(big, f);
    var both := r + Moved(r, p);
    forall k | 0 <= k < |both| ensures both[k].0 < |f| && both[k].1 < |f| && f[both[k].0] > f[both[k].1] {
      assert both[k] == big[if k < |r| then k else k + 1];
    }
    assert Ordered(both, f);
  }

  lemma {:induction false} RuledOutStays(r: seq<Pair>, e: Pair, p: seq<nat>)
    requires InRange(r, |p|) && e.0 < |p| && e.1 < |p| && RuledOut(r, p)
    ensures RuledOut(r + [e], p)
  {
    if !RuledOut(r + [e], p) {
      FewerIsSatisfiable(r, e, p);
    }
  }

  /** A two-cycle of p with the matching restriction rules p out. */
  lemma {:induction false} SwapRulesOut(r: seq<Pair>, p: seq<nat>, k: nat)
    requires InRange(r, |p|) && k < |r|
    requires p[r[k].0] == r[k].1 && p[r[k].1] == r[k].0
    ensures RuledOut(r, p)
  {
    var both := r + Moved(r, p);
    assert both[k] == r[k] && both[|r| + k] == (r[k].1, r[k].0);
    forall f | |f| == |p| ensures !Ordered(both, f) {
    }
  }

  // ----- restrictions as arrows -----

  ghost predicate Drawn(m: Matrix, r: seq<Pair>)
    requires Square(m, |m|)
  {
    InRange(r, |m|) && forall i: nat, j: nat :: i < |m| && j < |m| ==> (m[i][j] <==> (i, j) in r)
  }

  lemma {:induction false} DrawOne(m: Matrix, r: seq<Pair>, e: Pair)
    requires Square(m, |m|) && Drawn(m, r) && e.0 < |m| && e.1 < |m|
    ensures Drawn(SetEntry(m, e.0, e.1, true), r + [e])
  {
  }

  lemma {:induction false} AcyclicIsSatisfiable(m: Matrix, r: seq<Pair>)
    requires Square(m, |m|) && Drawn(m, r)
    ensures Acyclic(m) <==> Satisfiable(r, |m|)
  {
    if Acyclic(m) {
      var f :| Descends(m, f);
      forall k | 0 <= k < |r| ensures r[k].0 < |f| && r[k].1 < |f| && f[r[k].0] > f[r[k].1] {
        assert (r[k].0, r[k].1) in r;
      }
      assert Ordered(r, f);
    }
    if Satisfiable(r, |m|) {
      var f :| |f| == |m| && Ordered(r, f);
      assert Descends(m, f);
    }
  }

  /** test_dag: the base arrows plus the arrows of the moved restrictions. */
  method Conflicts(base: Pattern, pairs: seq<Pair>, iso: seq<nat>) returns (bad: bool)
    requires base.Valid() && Drawn(base.adjMat, pairs) && IsPerm(iso, base.size)
    ensures bad <==> RuledOut(pairs, iso)
  {
    var test := new Pattern.Copy(base);
    for k := 0 to |pairs|
      invariant test.Valid() && test.size == base.size
      invariant Drawn(test.adjMat, pairs + Moved(pairs, iso)[..k])
    {
      var e := (iso[pairs[k].0], iso[pairs[k].1]);
      DrawOne(test.adjMat, pairs + Moved(pairs, iso)[..k], e);
      assert pairs + Moved(pairs, iso)[..k + 1] == pairs + Moved(pairs, iso)[..k] + [e];
      test.AddOrderedEdge(e.0, e.1);
    }
    assert Moved(pairs, iso)[..|pairs|] == Moved(pairs, iso);
    var dag := test.IsDag();
    AcyclicIsSatisfiable(test.adjMat, pairs + Moved(pairs, iso));
    bad := !dag;
  }
}
