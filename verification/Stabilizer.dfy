/** GraphZero's restrictions, read off a chain of stabilisers. */
module Stabilizer {
  import opened Counting
  import opened Patterns
  import opened Symmetry
  import opened Permutations

  /** The automorphisms that fix every vertex below v. */
  ghost function Fixing(q: Query, v: nat): (s: set<seq<nat>>)
    requires q.Valid() && v <= q.n
    ensures forall p :: p in s <==> p in Automorphisms(q) && FixesBelow(p, v)
  {
    set p | p in Automorphisms(q) && FixesBelow(p, v)
  }

  ghost predicate FixesBelow(p: seq<nat>, v: nat) {
    v <= |p| && forall i :: 0 <= i < v ==> p[i] == i
  }

  /** (v, w) belongs to the chain: some automorphism fixing 0..v-1 moves v to w > v. */
  ghost predicate InChain(q: Query, e: Pair)
    requires q.Valid()
  {
    e.0 < e.1 < q.n && exists p :: p in Fixing(q, e.0) && p[e.0] == e.1
  }

  ghost predicate OrderedByChain(q: Query, f: seq<nat>)
    requires q.Valid() && |f| == q.n
  {
    forall e: Pair :: InChain(q, e) ==> f[e.0] > f[e.1]
  }

  lemma {:induction false} MovesUp(q: Query, p: seq<nat>, v: nat)
    requires q.Valid() && v < q.n && p in Fixing(q, v) && p[v] != v
    ensures InChain(q, (v, p[v]))
  {
    var once, twice := p[v], p[p[v]];
    assert once < v ==> twice == once;
  }

  lemma {:induction false} InverseFixes(q: Query, p: seq<nat>, v: nat)
    requires q.Valid() && v <= q.n && p in Fixing(q, v)
    ensures Inverse(p) in Fixing(q, v)
  {
    AutomorphismsInvert(q, p);
    forall i | 0 <= i < v ensures Inverse(p)[i] == i {
      assert p[i] == i;
    }
  }

  // ----- at most one image -----

  lemma {:induction false} FirstMoved(q: Query, p: seq<nat>) returns (v: nat)
    requires q.Valid() && p in Automorphisms(q) && p != Identity(q.n)
    ensures v < q.n && p in Fixing(q, v) && p[v] != v
  {
    v := 0;
    while v < q.n && p[v] == v
      invariant v <= q.n && FixesBelow(p, v)
    {
      v := v + 1;
    }
    assert v == q.n ==> p == Identity(q.n);
  }

  /** A non-trivial automorphism cannot keep the chain order. */
  lemma {:induction false} ChainDetects(q: Query, g: seq<nat>, p: seq<nat>, v: nat)
    requires q.Valid() && |g| == q.n && v < q.n && p in Fixing(q, v) && p[v] != v
    requires OrderedByChain(q, g)
    ensures !OrderedByChain(q, Compose(g, p))
  {
    var u, h := Inverse(p)[v], Compose(g, p);
    MovesUp(q, p, v);
    InverseFixes(q, p, v);
    MovesUp(q, Inverse(p), v);
    assert InChain(q, (v, p[v])) && InChain(q, (v, u));
    assert h[v] == g[p[v]] < g[v] == h[u];
  }

  // ----- at least one image -----

  ghost predicate LexLess(s: seq<nat>, t: seq<nat>) {
    |s| == |t| && exists v :: LexLessAt(s, t, v)
  }

  ghost predicate LexLessAt(s: seq<nat>, t: seq<nat>, v: int) {
    |s| == |t| && 0 <= v < |s| && s[v] < t[v] && forall i :: 0 <= i < v ==> s[i] == t[i]
  }

  lemma {:induction false} LexTransitive(s: seq<nat>, t: seq<nat>, u: seq<nat>)
    requires LexLess(s, t) && LexLess(t, u)
    ensures LexLess(s, u)
  {
    var v :| LexLessAt(s, t, v);
    var w :| LexLessAt(t, u, w);
    assert LexLessAt(s, u, if v < w then v else w);
  }

  lemma {:induction false} LexGreatest(s: set<seq<nat>>) returns (m: seq<nat>)
    requires s != {}
    ensures m in s && forall t :: t in s ==> !LexLess(m, t)
    decreases |s|
  {
    var w :| w in s;
    if s == {w} {
      return w;
    }
    m := LexGreatest(s - {w});
    if LexLess(m, w) {
      forall t | t in s ensures !LexLess(w, t) {
        if LexLess(w, t) {
          LexTransitive(m, w, t);
        }
      }
      m := w;
    }
  }

  /** The lexicographically greatest image obeys the whole chain. */
  lemma {:induction false} GreatestIsOrdered(q: Query, f: seq<nat>) returns (a: seq<nat>)
    requires q.Valid() && |f| == q.n && Injective(f)
    ensures a in Automorphisms(q) && OrderedByChain(q, Compose(f, a))
  {
    IdentityIsAutomorphism(q);
    assert Compose(f, Identity(q.n)) in Orbit(q, f);
    var m := LexGreatest(Orbit(q, f));
    a :| a in Automorphisms(q) && Compose(f, a) == m;
    ComposeInjective(f, a);
    forall e: Pair | InChain(q, e) ensures m[e.0] > m[e.1] {
      var p :| p in Fixing(q, e.0) && p[e.0] == e.1;
      AutomorphismsCompose(q, a, p);
      ComposeAssociates(f, a, p);
      var other := Compose(m, p);
      assert other in Orbit(q, f);
      assert m[e.0] < other[e.0] ==> LexLessAt(m, other, e.0);
    }
  }

  // ----- dropping implied pairs -----

  /** kept holds, for every chain pair, one with the same second and no smaller first. */
  ghost predicate KeepsLargest(q: Query, kept: seq<Pair>)
    requires q.Valid()
  {
    && (forall k :: 0 <= k < |kept| ==> InChain(q, kept[k]))
    && OncePerSecond(kept)
    && (forall e: Pair {:trigger Covered(kept, e)} :: InChain(q, e) ==> Covered(kept, e))
  }

  ghost predicate OncePerSecond(kept: seq<Pair>) {
    forall j, k :: 0 <= j < k < |kept| ==> kept[j].1 != kept[k].1
  }

  ghost predicate Covered(kept: seq<Pair>, e: Pair) {
    exists k :: 0 <= k < |kept| && kept[k].1 == e.1 && kept[k].0 >= e.0
  }

  /** Two chain pairs with the same second: their firsts are chained as well. */
  lemma {:induction false} FirstsChained(q: Query, d: Pair, e: Pair)
    requires q.Valid() && InChain(q, d) && InChain(q, e) && d.1 == e.1 && d.0 < e.0
    ensures InChain(q, (d.0, e.0))
  {
    var p :| p in Fixing(q, d.0) && p[d.0] == d.1;
    var r :| r in Fixing(q, e.0) && r[e.0] == e.1;
    InverseFixes(q, r, e.0);
    AutomorphismsCompose(q, Inverse(r), p);
    var c := Compose(Inverse(r), p);
    forall i | 0 <= i < d.0 ensures c[i] == i {
      assert p[i] == i && Inverse(r)[i] == i;
    }
    assert c[d.0] == e.0;
    assert c in Fixing(q, d.0);
  }

  lemma {:induction false} CoveredBy(q: Query, kept: seq<Pair>, e: Pair) returns (k: nat)
    requires q.Valid() && KeepsLargest(q, kept) && InChain(q, e)
    ensures k < |kept| && kept[k].1 == e.1 && kept[k].0 >= e.0 && InChain(q, kept[k])
  {
    assert Covered(kept, e);
    k :| 0 <= k < |kept| && kept[k].1 == e.1 && kept[k].0 >= e.0;
  }

  lemma {:induction false} LargestSuffice(q: Query, kept: seq<Pair>, f: seq<nat>, e: Pair)
    requires q.Valid() && |f| == q.n && KeepsLargest(q, kept) && Ordered(kept, f)
    requires InChain(q, e)
    ensures f[e.0] > f[e.1]
    decreases e.1
  {
    var k := CoveredBy(q, kept, e);
    if kept[k].0 > e.0 {
      FirstsChained(q, e, kept[k]);
      LargestSuffice(q, kept, f, (e.0, kept[k].0));
    }
  }

  /** Keeping only the largest first per second loses no constraint. */
  lemma {:induction false} LargestEquivalent(q: Query, kept: seq<Pair>, f: seq<nat>)
    requires q.Valid() && |f| == q.n && KeepsLargest(q, kept)
    ensures Ordered(kept, f) <==> OrderedByChain(q, f)
  {
    if Ordered(kept, f) {
      forall e: Pair | InChain(q, e) ensures f[e.0] > f[e.1] {
        LargestSuffice(q, kept, f, e);
      }
    }
  }

  /** The kept pairs select exactly one automorphic image of every injective assignment. */
  lemma {:induction false} ChainBreaksSymmetry(q: Query, kept: seq<Pair>)
    requires q.Valid() && KeepsLargest(q, kept)
    ensures BreaksSymmetry(q, kept)
  {
    forall f, a, b | |f| == q.n && Injective(f) && a in Automorphisms(q) && b in Automorphisms(q)
      && Ordered(kept, Compose(f, a)) && Ordered(kept, Compose(f, b))
      ensures a == b
    {
      LargestEquivalent(q, kept, Compose(f, a));
      LargestEquivalent(q, kept, Compose(f, b));
      var p := ImagesDiffer(q, f, a, b);
      if p != Identity(q.n) {
        var v := FirstMoved(q, p);
        ChainDetects(q, Compose(f, a), p, v);
      }
    }
    forall f | |f| == q.n && Injective(f) ensures HasImage(q, kept, f) {
      var a := GreatestIsOrdered(q, f);
      LargestEquivalent(q, kept, Compose(f, a));
    }
  }

  // ----- the procedure -----

  ghost predicate RowSame(q: Query, p: seq<nat>, i: nat, n: nat)
    requires q.Valid() && IsPerm(p, q.n) && i < q.n && n <= q.n
  {
    forall y {:trigger p[y]} :: 0 <= y < n ==> q.adj[p[i]][p[y]] == q.adj[i][y]
  }

  lemma {:induction false} RowsPreserve(q: Query, p: seq<nat>)
    requires q.Valid() && IsPerm(p, q.n)
    ensures Preserves(q, p) <==> forall x :: 0 <= x < q.n ==> RowSame(q, p, x, q.n)
  {
    if Preserves(q, p) {
      forall x | 0 <= x < q.n ensures RowSame(q, p, x, q.n) {
        forall y | 0 <= y < q.n ensures q.adj[p[x]][p[y]] == q.adj[x][y] {
        }
      }
    }
    if forall x :: 0 <= x < q.n ==> RowSame(q, p, x, q.n) {
      forall x, y | 0 <= x < q.n && 0 <= y < q.n ensures q.adj[p[x]][p[y]] == q.adj[x][y] {
        assert RowSame(q, p, x, q.n);
      }
    }
  }

  method PreservesAll(q: Query, p: seq<nat>) returns (tag: bool)
    requires q.Valid() && IsPerm(p, q.n)
    ensures tag <==> Preserves(q, p)
  {
    hide Preserves;
    RowsPreserve(q, p);
    tag := true;
    var i := 0;
    while i < q.n && tag
      invariant 0 <= i <= q.n && tag
      invariant forall x :: 0 <= x < i ==> RowSame(q, p, x, q.n)
      decreases q.n - i
    {
      var j := 0;
      while j < q.n && tag
        invariant 0 <= j <= q.n
        invariant if tag then RowSame(q, p, i, j) else !RowSame(q, p, i, q.n)
        decreases q.n - j, tag
      {
        if q.adj[i][j] != q.adj[p[i]][p[j]] {
          tag := false;
        } else {
          j := j + 1;
        }
      }
      if tag {
        i := i + 1;
      } else {
        return false;
      }
    }
  }

  method GraphZeroGetAutomorphisms(q: Query) returns (aut: seq<seq<nat>>)
    requires q.Valid()
    ensures Elements(aut) == Automorphisms(q)
  {
    var use := new bool[q.n](_ => false);
    var perms := GetFullPermutation(q.n, [], use, []);
    assert perms == Extensions(q.n, [], 0);
    forall p ensures p in perms <==> IsPerm(p, q.n) {
      ExtensionsComplete(q.n, [], 0, p);
    }
    aut := KeepAutomorphisms(q, perms);
  }

  method KeepAutomorphisms(q: Query, perms: seq<seq<nat>>) returns (aut: seq<seq<nat>>)
    requires q.Valid() && forall p :: p in perms <==> IsPerm(p, q.n)
    ensures Elements(aut) == Automorphisms(q)
  {
    aut := [];
    for k := 0 to |perms|
      invariant forall p :: p in aut <==> p in perms[..k] && p in Automorphisms(q)
    {
      assert perms[..k + 1] == perms[..k] + [perms[k]];
      assert perms[k] in perms;
      var tag := PreservesAll(q, perms[k]);
      if tag {
        aut := aut + [perms[k]];
      }
    }
    assert perms[..|perms|] == perms;
  }

  /** One level of the chain: record where v can go, keep what fixes it. */
  method Stabilize(q: Query, v: nat, aut: seq<seq<nat>>, l0: seq<Pair>)
    returns (stabilized: seq<seq<nat>>, l: seq<Pair>)
    requires q.Valid() && v < q.n && Elements(aut) == Fixing(q, v)
    requires forall e: Pair :: e in l0 <==> InChain(q, e) && e.0 < v
    ensures Elements(stabilized) == Fixing(q, v + 1)
    ensures forall e: Pair :: e in l <==> InChain(q, e) && e.0 < v + 1
  {
    stabilized, l := [], l0;
    for i := 0 to |aut|
      invariant forall p :: p in stabilized <==> p in aut[..i] && v < |p| && p[v] == v
      invariant forall e: Pair :: e in l <==> e in l0 || MovedBy(aut[..i], v, e)
    {
      var x := aut[i];
      assert aut[..i + 1] == aut[..i] + [x];
      assert x in Elements(aut);
      if x[v] == v {
        stabilized := stabilized + [x];
      } else {
        MovesUp(q, x, v);
        var x1, x2 := v, x[v];
        if x1 > x2 {
          x1, x2 := x2, x1;
        }
        var cur := (x1, x2);
        if cur !in l {
          l := l + [cur];
        }
      }
      forall e: Pair ensures MovedBy(aut[..i + 1], v, e) <==> MovedBy(aut[..i], v, e) || (x[v] != v && e == (v, x[v])) {
      }
    }
    assert aut[..|aut|] == aut;
    forall e: Pair ensures e in l <==> InChain(q, e) && e.0 < v + 1 {
      MovedIsChain(q, aut, v, e);
    }
    forall p ensures p in stabilized <==> p in Fixing(q, v + 1) {
      assert p in aut <==> p in Elements(aut);
    }
  }

  ghost predicate MovedBy(aut: seq<seq<nat>>, v: nat, e: Pair) {
    e.0 == v && e.1 != v && exists p :: p in aut && v < |p| && p[v] == e.1
  }

  lemma {:induction false} MovedIsChain(q: Query, aut: seq<seq<nat>>, v: nat, e: Pair)
    requires q.Valid() && v < q.n && Elements(aut) == Fixing(q, v)
    ensures MovedBy(aut, v, e) <==> InChain(q, e) && e.0 == v
  {
    if MovedBy(aut, v, e) {
      var p :| p in aut && v < |p| && p[v] == e.1;
      assert p in Elements(aut);
      MovesUp(q, p, v);
    }
    if InChain(q, e) && e.0 == v {
      var p :| p in Fixing(q, e.0) && p[e.0] == e.1;
      assert p in Elements(aut);
    }
  }

  method KeepLargest(q: Query, l: seq<Pair>) returns (kept: seq<Pair>)
    requires q.Valid() && forall e: Pair :: e in l <==> InChain(q, e)
    ensures KeepsLargest(q, kept)
  {
    kept := [];
    for i := 0 to |l|
      invariant OncePerSecond(kept) && forall k :: 0 <= k < |kept| ==> kept[k] in l
      invariant forall k :: 0 <= k < i ==> Covered(kept, l[k])
    {
      kept := Absorb(l, kept, i);
    }
    forall e: Pair | InChain(q, e) ensures Covered(kept, e) {
      assert e in l;
    }
  }

  /** Raising entries and adding new ones covers what was covered. */
  lemma {:induction false} StillCovered(a: seq<Pair>, b: seq<Pair>, e: Pair)
    requires Covered(a, e) && |a| <= |b|
    requires forall m :: 0 <= m < |a| ==> b[m].1 == a[m].1 && b[m].0 >= a[m].0
    ensures Covered(b, e)
  {
    var m :| 0 <= m < |a| && a[m].1 == e.1 && a[m].0 >= e.0;
    assert b[m].1 == e.1 && b[m].0 >= e.0;
  }

  method Absorb(l: seq<Pair>, kept0: seq<Pair>, i: nat) returns (kept: seq<Pair>)
    requires i < |l| && OncePerSecond(kept0) && forall k :: 0 <= k < |kept0| ==> kept0[k] in l
    requires forall k :: 0 <= k < i ==> Covered(kept0, l[k])
    ensures OncePerSecond(kept) && forall k :: 0 <= k < |kept| ==> kept[k] in l
    ensures forall k :: 0 <= k < i + 1 ==> Covered(kept, l[k])
  {
    kept := kept0;
    for j := 0 to |kept|
      invariant kept == kept0
      invariant forall k :: 0 <= k < j ==> kept[k].1 != l[i].1
    {
      if l[i].1 == kept[j].1 {
        if l[i].0 > kept[j].0 {
          kept := kept[j := l[i]];
        }
        forall k | 0 <= k < i + 1 ensures Covered(kept, l[k]) {
          if k < i {
            StillCovered(kept0, kept, l[k]);
          } else {
            assert kept[j].1 == l[k].1;
          }
        }
        return;
      }
    }
    kept := kept + [l[i]];
    forall k | 0 <= k < i + 1 ensures Covered(kept, l[k]) {
      if k < i {
        StillCovered(kept0, kept, l[k]);
      } else {
        assert kept[|kept0|] == l[i];
      }
    }
  }

  method GraphZeroAggressiveOptimize(q: Query) returns (orderedPairs: seq<Pair>)
    requires q.Valid()
    ensures KeepsLargest(q, orderedPairs) && BreaksSymmetry(q, orderedPairs)
  {
    var aut := GraphZeroGetAutomorphisms(q);
    var l: seq<Pair> := [];
    assert Fixing(q, 0) == Automorphisms(q);
    assert forall e: Pair :: e in l <==> InChain(q, e) && e.0 < 0;
    for v := 0 to q.n
      invariant Elements(aut) == Fixing(q, v)
      invariant forall e: Pair :: e in l <==> InChain(q, e) && e.0 < v
    {
      aut, l := Stabilize(q, v, aut, l);
    }
    orderedPairs := KeepLargest(q, l);
    ChainBreaksSymmetry(q, orderedPairs);
  }
}
