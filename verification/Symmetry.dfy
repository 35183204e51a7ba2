/** Automorphisms act freely on injective maps, so a restriction set that keeps
    exactly one image of every map divides every count by the group order. */
module Symmetry {
  import opened Arithmetic
  import opened Counting
  import opened Patterns

  ghost predicate IsPerm(p: seq<nat>, n: nat) {
    IsTuple(p, n, n) && Injective(p)
  }

  ghost function Identity(n: nat): (p: seq<nat>)
    ensures IsPerm(p, n)
  {
    seq(n, i => i)
  }

  ghost function Compose(f: seq<nat>, a: seq<nat>): (h: seq<nat>)
    requires IsTuple(a, |a|, |f|)
    ensures |h| == |a| && forall i :: 0 <= i < |a| ==> h[i] == f[a[i]]
  {
    seq(|a|, i requires 0 <= i < |a| => f[a[i]])
  }

  ghost function Inverse(p: seq<nat>): (r: seq<nat>)
    requires IsPerm(p, |p|)
    ensures IsPerm(r, |p|)
    ensures forall i :: 0 <= i < |p| ==> r[p[i]] == i && p[r[i]] == i
  {
    var r := seq(|p|, v requires 0 <= v < |p| => Preimage(p, v));
    assert forall i :: 0 <= i < |p| ==> r[p[i]] == i;
    assert forall v :: 0 <= v < |p| ==> p[r[v]] == v;
    r
  }

  ghost function Preimage(p: seq<nat>, v: nat): (i: nat)
    requires IsPerm(p, |p|) && v < |p|
    ensures i < |p| && p[i] == v
  {
    InjectiveIsOnto(p, v);
    var i :| 0 <= i < |p| && p[i] == v;
    i
  }

  lemma {:induction false} ComposeAssociates(f: seq<nat>, a: seq<nat>, b: seq<nat>)
    requires IsPerm(a, |f|) && IsPerm(b, |f|)
    ensures IsPerm(Compose(a, b), |f|)
    ensures Compose(Compose(f, a), b) == Compose(f, Compose(a, b))
  {
    var c := Compose(a, b);
    forall i, j | 0 <= i < j < |c| ensures c[i] != c[j] {
      assert b[i] != b[j];
    }
  }

  lemma {:induction false} InverseCancels(f: seq<nat>, a: seq<nat>)
    requires IsPerm(a, |f|)
    ensures Compose(Compose(f, a), Inverse(a)) == f
    ensures Compose(Compose(f, Inverse(a)), a) == f
  {
  }

  lemma {:induction false} ComposeInjective(f: seq<nat>, a: seq<nat>)
    requires IsPerm(a, |f|) && Injective(f)
    ensures Injective(Compose(f, a))
  {
  }

  // ----- the automorphism group -----

  ghost predicate Preserves(q: Query, p: seq<nat>)
    requires q.Valid() && IsPerm(p, q.n)
  {
    forall i, j {:trigger p[i], p[j]} :: 0 <= i < q.n && 0 <= j < q.n ==> q.adj[p[i]][p[j]] == q.adj[i][j]
  }

  /** The test of get_isomorphism_vec: edges i < j go to edges. */
  ghost predicate KeepsEdges(q: Query, p: seq<nat>)
    requires q.Valid() && IsPerm(p, q.n)
  {
    forall i, j {:trigger p[i], p[j]} :: 0 <= i < j < q.n && q.adj[i][j] ==> q.adj[p[i]][p[j]]
  }

  ghost function Automorphisms(q: Query): (s: set<seq<nat>>)
    requires q.Valid()
    ensures forall p :: p in s <==> IsPerm(p, q.n) && Preserves(q, p)
  {
    set p | p in Tuples(q.n, q.n) && IsPerm(p, q.n) && Preserves(q, p)
  }

  lemma {:induction false} IdentityIsAutomorphism(q: Query)
    requires q.Valid()
    ensures Identity(q.n) in Automorphisms(q)
  {
  }

  lemma {:induction false} AutomorphismsCompose(q: Query, a: seq<nat>, b: seq<nat>)
    requires q.Valid() && a in Automorphisms(q) && b in Automorphisms(q)
    ensures Compose(a, b) in Automorphisms(q)
  {
    ComposeAssociates(a, a, b);
    var c := Compose(a, b);
    forall i, j | 0 <= i < q.n && 0 <= j < q.n
      ensures q.adj[c[i]][c[j]] == q.adj[i][j]
    {
      assert q.adj[a[b[i]]][a[b[j]]] == q.adj[b[i]][b[j]];
    }
  }

  lemma {:induction false} AutomorphismsInvert(q: Query, a: seq<nat>)
    requires q.Valid() && a in Automorphisms(q)
    ensures Inverse(a) in Automorphisms(q)
  {
    var r := Inverse(a);
    forall i, j | 0 <= i < q.n && 0 <= j < q.n
      ensures q.adj[r[i]][r[j]] == q.adj[i][j]
    {
      assert q.adj[a[r[i]]][a[r[j]]] == q.adj[r[i]][r[j]];
    }
  }

  ghost function EdgeSet(q: Query): (s: set<(nat, nat)>)
    requires q.Valid()
    ensures forall i: nat, j: nat :: (i, j) in s <==> i < q.n && j < q.n && q.adj[i][j]
  {
    set e | e in Product(Below(q.n), Below(q.n)) && q.adj[e.0][e.1]
  }

  ghost function MoveEdge(p: seq<nat>): ((nat, nat)) -> (nat, nat) {
    (e: (nat, nat)) => if e.0 < |p| && e.1 < |p| then (p[e.0], p[e.1]) else e
  }

  lemma {:induction false} EdgeMoves(q: Query, p: seq<nat>, i: nat, j: nat)
    requires q.Valid() && IsPerm(p, q.n) && KeepsEdges(q, p) && i < q.n && j < q.n && q.adj[i][j]
    ensures q.adj[p[i]][p[j]]
  {
    assert i != j;
    if j < i {
      assert q.adj[j][i];
      assert q.adj[p[j]][p[i]];
    }
  }

  lemma {:induction false} EdgesMoveOnto(q: Query, p: seq<nat>)
    requires q.Valid() && IsPerm(p, q.n)
    requires KeepsEdges(q, p)
    ensures Image(MoveEdge(p), EdgeSet(q)) == EdgeSet(q)
  {
    hide KeepsEdges;
    var edges, f := EdgeSet(q), MoveEdge(p);
    forall e | e in edges ensures f(e) in edges {
      EdgeMoves(q, p, e.0, e.1);
    }
    ImageSize(f, edges);
    SubsetSize(Image(f, edges), edges);
  }

  lemma {:induction false} MovedBothWays(edges: set<(nat, nat)>, p: seq<nat>, i: nat, j: nat)
    requires Injective(p) && i < |p| && j < |p|
    requires forall e :: e in edges ==> e.0 < |p| && e.1 < |p|
    ensures (i, j) in edges <==> (p[i], p[j]) in Image(MoveEdge(p), edges)
  {
    var f := MoveEdge(p);
    if (i, j) in edges {
      assert f((i, j)) in Image(f, edges);
    }
    if (p[i], p[j]) in Image(f, edges) {
      var e :| e in edges && f(e) == (p[i], p[j]);
      assert p[e.0] == p[i] && p[e.1] == p[j];
      assert e.0 == i && e.1 == j;
    }
  }

  /** Checking edges in one direction is enough: a permutation that sends every
      edge to an edge also sends every non-edge to a non-edge. */
  lemma {:induction false} EdgesSuffice(q: Query, p: seq<nat>)
    requires q.Valid() && IsPerm(p, q.n) && KeepsEdges(q, p)
    ensures Preserves(q, p)
  {
    forall i, j | 0 <= i < q.n && 0 <= j < q.n
      ensures q.adj[p[i]][p[j]] == q.adj[i][j]
    {
      MovedBothWays(EdgeSet(q), p, i, j);
      assert Image(MoveEdge(p), EdgeSet(q)) == EdgeSet(q) by {
        EdgesMoveOnto(q, p);
      }
    }
  }

  lemma {:induction false} ImagesEmbed(g: Graph, q: Query, f: seq<nat>, a: seq<nat>)
    requires q.Valid() && Embeds(g, q, f) && a in Automorphisms(q)
    ensures Embeds(g, q, Compose(f, a))
  {
    var h := Compose(f, a);
    ComposeInjective(f, a);
    forall i, j | 0 <= i < q.n && 0 <= j < q.n && i != j
      ensures PairFits(g, q, h, i, j)
    {
      assert a[i] != a[j];
      assert PairFits(g, q, f, a[i], a[j]);
    }
  }

  /** Any two images of f differ by one group element. */
  lemma {:induction false} ImagesDiffer(q: Query, f: seq<nat>, a: seq<nat>, b: seq<nat>) returns (p: seq<nat>)
    requires q.Valid() && |f| == q.n && a in Automorphisms(q) && b in Automorphisms(q)
    ensures p in Automorphisms(q)
    ensures Compose(Compose(f, a), p) == Compose(f, b)
    ensures p == Identity(q.n) ==> a == b
  {
    p := Compose(Inverse(a), b);
    AutomorphismsInvert(q, a);
    AutomorphismsCompose(q, Inverse(a), b);
    ComposeAssociates(f, a, p);
    ComposeAssociates(a, Inverse(a), b);
    assert Compose(a, Inverse(a)) == Identity(q.n);
    assert Compose(a, p) == b;
  }

  // ----- restrictions against the group -----

  ghost predicate AtMostOneImage(q: Query, r: seq<Pair>)
    requires q.Valid()
  {
    forall f, a, b | |f| == q.n && Injective(f) && a in Automorphisms(q) && b in Automorphisms(q) ::
      Ordered(r, Compose(f, a)) && Ordered(r, Compose(f, b)) ==> a == b
  }

  ghost predicate HasImage(q: Query, r: seq<Pair>, f: seq<nat>)
    requires q.Valid() && |f| == q.n
  {
    exists a :: a in Automorphisms(q) && Ordered(r, Compose(f, a))
  }

  ghost predicate AtLeastOneImage(q: Query, r: seq<Pair>)
    requires q.Valid()
  {
    forall f :: |f| == q.n && Injective(f) ==> HasImage(q, r, f)
  }

  /** Exactly one automorphic image of every injective assignment obeys r. */
  ghost predicate BreaksSymmetry(q: Query, r: seq<Pair>)
    requires q.Valid()
  {
    AtMostOneImage(q, r) && AtLeastOneImage(q, r)
  }

  ghost function Act(q: Query): ((seq<nat>, seq<nat>)) -> seq<nat> {
    (e: (seq<nat>, seq<nat>)) => if IsPerm(e.1, |e.0|) then Compose(e.0, e.1) else e.0
  }

  /** The images of the restricted matches under the whole group. */
  ghost function Spread(g: Graph, q: Query, r: seq<Pair>): set<seq<nat>>
    requires q.Valid()
  {
    Image(Act(q), Product(Matches(g, q, r), Automorphisms(q)))
  }

  lemma {:induction false} EmbedsInjectively(g: Graph, q: Query, f: seq<nat>)
    requires q.Valid() && Embeds(g, q, f)
    ensures |f| == q.n && Injective(f)
  {
  }

  /** Two restricted assignments have a common image only if they are the same. */
  lemma {:induction false} OneSource(q: Query, r: seq<Pair>, f: seq<nat>, a: seq<nat>, h: seq<nat>, b: seq<nat>)
    requires q.Valid() && AtMostOneImage(q, r) && |f| == |h| == q.n && Injective(f)
    requires a in Automorphisms(q) && b in Automorphisms(q) && Compose(f, a) == Compose(h, b)
    requires Ordered(r, f) && Ordered(r, h)
    ensures f == h && a == b
  {
    hide Compose, Ordered, Preserves;
    InverseCancels(f, a);
    InverseCancels(h, b);
    AutomorphismsInvert(q, a);
    AutomorphismsInvert(q, b);
    ComposeInjective(f, a);
    assert Inverse(a) == Inverse(b);
    SameInverse(a, b);
  }

  lemma {:induction false} SameInverse(a: seq<nat>, b: seq<nat>)
    requires IsPerm(a, |a|) && IsPerm(b, |b|) && |a| == |b| && Inverse(a) == Inverse(b)
    ensures a == b
  {
    var r := Inverse(a);
    forall i | 0 <= i < |a| ensures a[i] == b[i] {
      assert r[a[i]] == i && b[r[a[i]]] == a[i];
    }
  }

  lemma {:induction false} SpreadSize(g: Graph, q: Query, r: seq<Pair>)
    requires q.Valid() && AtMostOneImage(q, r)
    ensures |Spread(g, q, r)| == |Matches(g, q, r)| * |Automorphisms(q)|
  {
    hide AtMostOneImage, Compose, Embeds, Ordered, Preserves;
    var pairs := Product(Matches(g, q, r), Automorphisms(q));
    forall x, y | x in pairs && y in pairs && Act(q)(x) == Act(q)(y) ensures x == y {
      EmbedsInjectively(g, q, x.0);
      EmbedsInjectively(g, q, y.0);
      OneSource(q, r, x.0, x.1, y.0, y.1);
    }
    ProductSize(Matches(g, q, r), Automorphisms(q));
    ImageSize(Act(q), pairs);
  }

  lemma {:induction false} SpreadWithin(g: Graph, q: Query, r: seq<Pair>)
    requires q.Valid()
    ensures Spread(g, q, r) <= Matches(g, q, [])
  {
    forall x | x in Product(Matches(g, q, r), Automorphisms(q)) ensures Act(q)(x) in Matches(g, q, []) {
      ImagesEmbed(g, q, x.0, x.1);
    }
  }

  lemma {:induction false} InSpread(g: Graph, q: Query, r: seq<Pair>, f: seq<nat>)
    requires q.Valid() && Embeds(g, q, f)
    ensures f in Spread(g, q, r) <==> HasImage(q, r, f)
  {
    var pairs := Product(Matches(g, q, r), Automorphisms(q));
    if HasImage(q, r, f) {
      var a :| a in Automorphisms(q) && Ordered(r, Compose(f, a));
      ImagesEmbed(g, q, f, a);
      AutomorphismsInvert(q, a);
      InverseCancels(f, a);
      var e := (Compose(f, a), Inverse(a));
      assert e in pairs && Act(q)(e) == f;
    }
    if f in Spread(g, q, r) {
      var e :| e in pairs && Act(q)(e) == f;
      AutomorphismsInvert(q, e.1);
      InverseCancels(e.0, e.1);
      assert Ordered(r, Compose(f, Inverse(e.1)));
    }
  }

  lemma {:induction false} SpreadCovers(g: Graph, q: Query, r: seq<Pair>)
    requires q.Valid() && AtLeastOneImage(q, r)
    ensures Spread(g, q, r) == Matches(g, q, [])
  {
    hide Spread, Embeds, HasImage, Ordered;
    SpreadWithin(g, q, r);
    forall f | f in Matches(g, q, []) ensures f in Spread(g, q, r) {
      EmbedsInjectively(g, q, f);
      assert HasImage(q, r, f);
      InSpread(g, q, r, f);
    }
  }

  /** Main counting law: on every graph, restricted count times |Aut| is the
      unrestricted count. */
  lemma {:induction false} RestrictedCount(g: Graph, q: Query, r: seq<Pair>)
    requires q.Valid() && BreaksSymmetry(q, r)
    ensures |Matches(g, q, r)| * |Automorphisms(q)| == |Matches(g, q, [])|
  {
    SpreadSize(g, q, r);
    SpreadCovers(g, q, r);
  }

  // ----- the test on a complete graph -----

  /** The rank of each entry: how many entries are smaller. */
  ghost function Ranks(f: seq<nat>): (s: seq<nat>)
    ensures |s| == |f|
  {
    seq(|f|, i requires 0 <= i < |f| => |Smaller(f, f[i])|)
  }

  ghost function Smaller(f: seq<nat>, v: nat): set<nat> {
    set j | 0 <= j < |f| && f[j] < v
  }

  lemma {:induction false} RanksKeepOrder(f: seq<nat>)
    requires Injective(f)
    ensures IsPerm(Ranks(f), |f|)
    ensures forall i, j :: 0 <= i < |f| && 0 <= j < |f| ==> (f[i] < f[j] <==> Ranks(f)[i] < Ranks(f)[j])
  {
    forall i, j | 0 <= i < |f| && 0 <= j < |f| && f[i] < f[j]
      ensures Ranks(f)[i] < Ranks(f)[j]
    {
      var a, b := Smaller(f, f[i]), Smaller(f, f[j]);
      assert a <= b && i in b && i !in a;
      SubsetSize(a, b);
    }
    forall i | 0 <= i < |f| ensures Ranks(f)[i] < |f| {
      var a := Smaller(f, f[i]);
      assert a <= Below(|f|) - {i};
      SubsetSize(a, Below(|f|) - {i});
    }
    var s := Ranks(f);
    forall i, j | 0 <= i < j < |s| ensures s[i] != s[j] {
      assert f[i] < f[j] || f[j] < f[i];
    }
  }

  lemma {:induction false} ImageOfRanks(q: Query, r: seq<Pair>, f: seq<nat>)
    requires q.Valid() && |f| == q.n && Injective(f) && HasImage(q, r, Ranks(f))
    ensures HasImage(q, r, f)
  {
    RanksKeepOrder(f);
    var a :| a in Automorphisms(q) && Ordered(r, Compose(Ranks(f), a));
    var h, s := Compose(f, a), Compose(Ranks(f), a);
    forall k | 0 <= k < |r| ensures r[k].0 < |h| && r[k].1 < |h| && h[r[k].0] > h[r[k].1] {
      assert s[r[k].0] > s[r[k].1];
    }
    assert Ordered(r, h);
  }

  lemma {:induction false} EmbedsInComplete(q: Query, s: seq<nat>, m: nat)
    requires q.Valid() && !q.induced && IsPerm(s, q.n) && q.n <= m
    ensures Embeds(Complete(m), q, s)
  {
    forall i, j | 0 <= i < q.n && 0 <= j < q.n && i != j
      ensures PairFits(Complete(m), q, s, i, j)
    {
      assert s[i] != s[j];
      assert s[j] in Others(s[i], m);
    }
  }

  /** A set that keeps at most one image, and keeps the right number of matches in
      one complete graph, keeps exactly one image everywhere. */
  lemma {:induction false} CompleteGraphDecides(q: Query, r: seq<Pair>, m: nat)
    requires q.Valid() && !q.induced && q.n <= m && AtMostOneImage(q, r)
    ensures |Matches(Complete(m), q, r)| * |Automorphisms(q)| == |Matches(Complete(m), q, [])|
      <==> BreaksSymmetry(q, r)
  {
    var g := Complete(m);
    if BreaksSymmetry(q, r) {
      RestrictedCount(g, q, r);
    }
    if |Matches(g, q, r)| * |Automorphisms(q)| == |Matches(g, q, [])| {
      SpreadSize(g, q, r);
      SpreadWithin(g, q, r);
      SubsetSize(Spread(g, q, r), Matches(g, q, []));
      forall f | |f| == q.n && Injective(f) ensures HasImage(q, r, f) {
        RanksKeepOrder(f);
        EmbedsInComplete(q, Ranks(f), m);
        InSpread(g, q, r, Ranks(f));
        ImageOfRanks(q, r, f);
      }
    }
  }

  // ----- the group order divides every unrestricted count -----

  ghost predicate ClosedUnder(q: Query, s: set<seq<nat>>)
    requires q.Valid()
  {
    forall f, a :: f in s && a in Automorphisms(q) ==>
      |f| == q.n && Injective(f) && Compose(f, a) in s
  }

  ghost function Orbit(q: Query, f: seq<nat>): set<seq<nat>>
    requires q.Valid() && |f| == q.n
  {
    set a | a in Automorphisms(q) :: Compose(f, a)
  }

  lemma {:induction false} OrbitSize(q: Query, f: seq<nat>)
    requires q.Valid() && |f| == q.n && Injective(f)
    ensures |Orbit(q, f)| == |Automorphisms(q)|
  {
    var act := (a: seq<nat>) => if IsPerm(a, |f|) then Compose(f, a) else a;
    forall a, b | a in Automorphisms(q) && b in Automorphisms(q) && act(a) == act(b) ensures a == b {
      forall i | 0 <= i < q.n ensures a[i] == b[i] {
        assert act(a)[i] == act(b)[i];
      }
    }
    ImageSize(act, Automorphisms(q));
    assert Orbit(q, f) == Image(act, Automorphisms(q));
  }

  lemma {:induction false} BackIntoOrbit(q: Query, f: seq<nat>, h: seq<nat>, a: seq<nat>)
    requires q.Valid() && |f| == q.n && |h| == q.n && a in Automorphisms(q)
    requires Compose(h, a) in Orbit(q, f)
    ensures h in Orbit(q, f)
  {
    var b :| b in Automorphisms(q) && Compose(f, b) == Compose(h, a);
    AutomorphismsInvert(q, a);
    AutomorphismsCompose(q, b, Inverse(a));
    ComposeAssociates(f, b, Inverse(a));
    InverseCancels(h, a);
  }

  lemma {:induction false} RemoveOrbit(q: Query, s: set<seq<nat>>, f: seq<nat>)
    requires q.Valid() && ClosedUnder(q, s) && f in s && |f| == q.n
    ensures ClosedUnder(q, s - Orbit(q, f))
    ensures Orbit(q, f) <= s
  {
    forall h, a | h in s - Orbit(q, f) && a in Automorphisms(q)
      ensures Compose(h, a) !in Orbit(q, f)
    {
      if Compose(h, a) in Orbit(q, f) {
        BackIntoOrbit(q, f, h, a);
      }
    }
  }

  lemma {:induction false} Member(q: Query, s: set<seq<nat>>, f: seq<nat>)
    requires q.Valid() && ClosedUnder(q, s) && f in s
    ensures |f| == q.n && Injective(f)
  {
    IdentityIsAutomorphism(q);
    assert Compose(f, Identity(q.n)) in s;
  }

  lemma {:induction false} PeelOrbit(q: Query, s: set<seq<nat>>) returns (rest: set<seq<nat>>)
    requires q.Valid() && ClosedUnder(q, s) && s != {}
    ensures ClosedUnder(q, rest)
    ensures |s| == |rest| + |Automorphisms(q)| && |Automorphisms(q)| > 0
  {
    var f :| f in s;
    IdentityIsAutomorphism(q);
    Member(q, s, f);
    hide ClosedUnder, Orbit, Preserves, Injective, Automorphisms;
    OrbitSize(q, f);
    RemoveOrbit(q, s, f);
    rest := s - Orbit(q, f);
    assert s == rest + Orbit(q, f) && rest !! Orbit(q, f);
  }

  lemma {:induction false} OrbitsDivide(q: Query, s: set<seq<nat>>) returns (orbits: nat)
    requires q.Valid() && ClosedUnder(q, s)
    ensures |s| == orbits * |Automorphisms(q)|
    decreases |s|
  {
    if s == {} {
      return 0;
    }
    var rest := PeelOrbit(q, s);
    var k := OrbitsDivide(q, rest);
    orbits := k + 1;
    OneMore(k, |Automorphisms(q)|);
  }

  lemma {:induction false} UnrestrictedDivides(g: Graph, q: Query)
    requires q.Valid()
    ensures |Automorphisms(q)| > 0
    ensures (|Matches(g, q, [])| / |Automorphisms(q)|) * |Automorphisms(q)| == |Matches(g, q, [])|
  {
    IdentityIsAutomorphism(q);
    assert Automorphisms(q) != {};
    var s := Matches(g, q, []);
    forall f, a | f in s && a in Automorphisms(q)
      ensures |f| == q.n && Injective(f) && Compose(f, a) in s
    {
      ImagesEmbed(g, q, f, a);
    }
    var k := OrbitsDivide(q, s);
    ExactDivision(k, |Automorphisms(q)|);
  }
}
