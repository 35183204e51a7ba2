/** motif_generator.cpp: one connected graph of each isomorphism class. */
module Motifs {
  import opened Arithmetic
  import opened Counting
  import opened Patterns
  import opened Symmetry
  import opened Permutations
  import opened PatternGraph

  ghost predicate Simple(m: Matrix, n: nat) {
    Query(n, m, false).Valid()
  }

  // ----- edge sets -----

  function Code(i: nat, j: nat, n: nat): nat {
    i * n + j
  }

  lemma {:induction false} CodeInjective(i: nat, j: nat, a: nat, b: nat, n: nat)
    requires j < n && b < n && Code(i, j, n) == Code(a, b, n)
    ensures i == a && j == b
  {
    QuotientUnique(n, i, j, a, b);
  }

  ghost predicate Coded(m: Matrix, n: nat, e: nat, i: nat, j: nat)
    requires Square(m, n)
  {
    i < j < n && m[i][j] && e == Code(i, j, n)
  }

  ghost predicate IsCode(m: Matrix, n: nat, e: nat)
    requires Square(m, n)
  {
    exists i: nat, j: nat :: Coded(m, n, e, i, j)
  }

  /** The set of codes of the edges, smaller end first. */
  ghost function Codes(m: Matrix, n: nat): set<nat>
    requires Square(m, n)
  {
    set e | e in Below(n * n) && IsCode(m, n, e)
  }

  lemma {:induction false} CodeBelow(i: nat, j: nat, n: nat)
    requires i < n && j < n
    ensures Code(i, j, n) < n * n
  {
    OneMore(i, n);
    TimesAdds(n, i + 1, n - i - 1);
    assert n * n == n * (i + 1) + n * (n - i - 1);
    assert n * (n - i - 1) >= 0;
  }

  lemma {:induction false} CodesExact(m: Matrix, n: nat, e: nat)
    requires Square(m, n)
    ensures e in Codes(m, n) <==> IsCode(m, n, e)
  {
    if IsCode(m, n, e) {
      var i: nat, j: nat :| Coded(m, n, e, i, j);
      CodeBelow(i, j, n);
    }
  }

  lemma {:induction false} CodesHold(m: Matrix, n: nat, i: nat, j: nat)
    requires Square(m, n) && i < j < n
    ensures Code(i, j, n) in Codes(m, n) <==> m[i][j]
  {
    hide Code;
    CodesExact(m, n, Code(i, j, n));
    if m[i][j] {
      assert Coded(m, n, Code(i, j, n), i, j);
    }
    if IsCode(m, n, Code(i, j, n)) {
      var a: nat, b: nat :| Coded(m, n, Code(i, j, n), a, b);
      CodeInjective(i, j, a, b, n);
    }
  }

  lemma {:induction false} CodesDecide(a: Matrix, b: Matrix, n: nat)
    requires Simple(a, n) && Simple(b, n) && Codes(a, n) == Codes(b, n)
    ensures a == b
  {
    forall i: nat, j: nat | i < n && j < n ensures a[i][j] == b[i][j] {
      if i < j {
        CodesHold(a, n, i, j);
        CodesHold(b, n, i, j);
      } else if j < i {
        CodesHold(a, n, j, i);
        CodesHold(b, n, j, i);
      }
    }
    forall i | 0 <= i < n ensures a[i] == b[i] {
    }
  }

  // ----- isomorphism -----

  /** The graph with every vertex x renamed to v[x]. */
  ghost function Relabel(m: Matrix, v: seq<nat>): (r: Matrix)
    requires Square(m, |v|) && IsPerm(v, |v|)
    ensures Square(r, |v|)
    ensures forall i, j :: 0 <= i < |v| && 0 <= j < |v| ==> r[v[i]][v[j]] == m[i][j]
  {
    var w := Inverse(v);
    seq(|v|, x requires 0 <= x < |v| => seq(|v|, y requires 0 <= y < |v| => m[w[x]][w[y]]))
  }

  ghost predicate Isomorphic(a: Matrix, b: Matrix, n: nat)
    requires Square(a, n)
  {
    exists v :: IsPerm(v, n) && b == Relabel(a, v)
  }

  lemma {:induction false} RelabelSimple(m: Matrix, v: seq<nat>)
    requires Simple(m, |v|) && IsPerm(v, |v|)
    ensures Simple(Relabel(m, v), |v|)
  {
    var r, w := Relabel(m, v), Inverse(v);
    forall i, j | 0 <= i < |v| && 0 <= j < |v| ensures r[i][j] == r[j][i] && !r[i][i] {
      assert r[v[w[i]]][v[w[j]]] == m[w[i]][w[j]] && r[v[w[j]]][v[w[i]]] == m[w[j]][w[i]];
      assert r[v[w[i]]][v[w[i]]] == m[w[i]][w[i]];
    }
  }

  lemma {:induction false} SameMatrix(a: Matrix, b: Matrix, n: nat)
    requires Square(a, n) && Square(b, n)
    requires forall i, j :: 0 <= i < n && 0 <= j < n ==> a[i][j] == b[i][j]
    ensures a == b
  {
    forall i | 0 <= i < n ensures a[i] == b[i] {
    }
  }

  lemma {:induction false} IsomorphicSelf(m: Matrix, n: nat)
    requires Square(m, n)
    ensures Isomorphic(m, m, n)
  {
    var v := Identity(n);
    var r := Relabel(m, v);
    forall i | 0 <= i < n ensures r[i] == m[i] {
      forall j | 0 <= j < n ensures r[i][j] == m[i][j] {
        assert r[v[i]][v[j]] == m[i][j];
      }
    }
    assert r == m;
  }

  lemma {:induction false} IsomorphicBack(a: Matrix, b: Matrix, n: nat)
    requires Square(a, n) && Isomorphic(a, b, n)
    ensures Square(b, n) && Isomorphic(b, a, n)
  {
    hide Relabel, Inverse;
    var v :| IsPerm(v, n) && b == Relabel(a, v);
    var w := Inverse(v);
    var r := Relabel(b, w);
    forall i, j | 0 <= i < n && 0 <= j < n ensures r[i][j] == a[i][j] {
      assert r[w[v[i]]][w[v[j]]] == b[v[i]][v[j]] == a[i][j];
    }
    SameMatrix(r, a, n);
  }

  // ----- count_all_isomorphism -----

  ghost function MovedCode(v: seq<nat>, i: nat, j: nat): nat
    requires i < |v| && j < |v|
  {
    if v[i] < v[j] then Code(v[i], v[j], |v|) else Code(v[j], v[i], |v|)
  }

  ghost predicate MovedBefore(m: Matrix, v: seq<nat>, e: nat, i: nat, j: nat, a: nat, b: nat)
    requires Square(m, |v|)
  {
    a < b < |v| && m[a][b] && (a < i || (a == i && b < j)) && e == MovedCode(v, a, b)
  }

  ghost predicate IsMoved(m: Matrix, v: seq<nat>, e: nat, i: nat, j: nat)
    requires Square(m, |v|)
  {
    exists a: nat, b: nat :: MovedBefore(m, v, e, i, j, a, b)
  }

  /** The codes of the renamed edges before position (i, j). */
  ghost predicate MovedSoFar(m: Matrix, v: seq<nat>, s: set<nat>, i: nat, j: nat)
    requires Square(m, |v|)
  {
    forall e :: e in s <==> IsMoved(m, v, e, i, j)
  }

  lemma {:induction false} MovedStep(m: Matrix, v: seq<nat>, s: set<nat>, i: nat, j: nat)
    requires Square(m, |v|) && i < j < |v| && MovedSoFar(m, v, s, i, j)
    ensures MovedSoFar(m, v, if m[i][j] then s + {MovedCode(v, i, j)} else s, i, j + 1)
  {
    hide MovedCode;
    var k := j + 1;
    forall e ensures IsMoved(m, v, e, i, k) <==> IsMoved(m, v, e, i, j) || (m[i][j] && e == MovedCode(v, i, j)) {
      if IsMoved(m, v, e, i, k) {
        var a: nat, b: nat :| MovedBefore(m, v, e, i, k, a, b);
        assert (a == i && b == j) || MovedBefore(m, v, e, i, j, a, b);
      }
      if IsMoved(m, v, e, i, j) {
        var a: nat, b: nat :| MovedBefore(m, v, e, i, j, a, b);
        assert MovedBefore(m, v, e, i, k, a, b);
      }
      if m[i][j] && e == MovedCode(v, i, j) {
        assert MovedBefore(m, v, e, i, k, i, j);
      }
    }
  }

  lemma {:induction false} MovedRowDone(m: Matrix, v: seq<nat>, s: set<nat>, i: nat)
    requires Square(m, |v|) && i < |v| && MovedSoFar(m, v, s, i, |v|)
    ensures MovedSoFar(m, v, s, i + 1, i + 2)
  {
    hide MovedCode;
    var k := i + 1;
    forall e ensures IsMoved(m, v, e, k, k + 1) <==> IsMoved(m, v, e, i, |v|) {
      if IsMoved(m, v, e, k, k + 1) {
        var a: nat, b: nat :| MovedBefore(m, v, e, k, k + 1, a, b);
        assert MovedBefore(m, v, e, i, |v|, a, b);
      }
      if IsMoved(m, v, e, i, |v|) {
        var a: nat, b: nat :| MovedBefore(m, v, e, i, |v|, a, b);
        assert MovedBefore(m, v, e, k, k + 1, a, b);
      }
    }
  }

  lemma {:induction false} MovedAll(m: Matrix, v: seq<nat>, s: set<nat>)
    requires Simple(m, |v|) && IsPerm(v, |v|) && MovedSoFar(m, v, s, |v|, |v| + 1)
    ensures s == Codes(Relabel(m, v), |v|)
  {
    hide MovedSoFar, Codes, Code, Relabel;
    var r, n := Relabel(m, v), |v|;
    forall e ensures e in s <==> e in Codes(r, n) {
      CodesExact(r, n, e);
      MovedIsCode(m, v, e);
      MovedIn(m, v, s, n, n + 1, e);
    }
  }

  lemma {:induction false} MovedIn(m: Matrix, v: seq<nat>, s: set<nat>, i: nat, j: nat, e: nat)
    requires Square(m, |v|) && MovedSoFar(m, v, s, i, j)
    ensures e in s <==> IsMoved(m, v, e, i, j)
  {
  }

  /** A renamed edge is an edge of the renamed graph. */
  lemma {:induction false} MovedIsCode(m: Matrix, v: seq<nat>, e: nat)
    requires Simple(m, |v|) && IsPerm(v, |v|)
    ensures IsMoved(m, v, e, |v|, |v| + 1) <==> IsCode(Relabel(m, v), |v|, e)
  {
    hide Code, Relabel;
    var r, w, n := Relabel(m, v), Inverse(v), |v|;
    if IsMoved(m, v, e, n, n + 1) {
      var a: nat, b: nat :| MovedBefore(m, v, e, n, n + 1, a, b);
      assert v[a] != v[b] && r[v[a]][v[b]] && r[v[b]][v[a]];
      assert Coded(r, n, e, if v[a] < v[b] then v[a] else v[b], if v[a] < v[b] then v[b] else v[a]);
    }
    if IsCode(r, n, e) {
      var x: nat, y: nat :| Coded(r, n, e, x, y);
      var a, b := if w[x] < w[y] then w[x] else w[y], if w[x] < w[y] then w[y] else w[x];
      assert r[v[w[x]]][v[w[y]]] == m[w[x]][w[y]];
      assert v[w[x]] == x && v[w[y]] == y && w[x] != w[y];
      assert MovedBefore(m, v, e, n, n + 1, a, b);
    }
  }

  method EdgeSetOf(m: Matrix, v: seq<nat>) returns (edgeSet: set<nat>)
    requires Simple(m, |v|) && IsPerm(v, |v|)
    ensures edgeSet == Codes(Relabel(m, v), |v|)
  {
    hide MovedSoFar, MovedCode;
    edgeSet := {};
    NothingMoved(m, v);
    for i := 0 to |v|
      invariant MovedSoFar(m, v, edgeSet, i, i + 1)
    {
      for j := i + 1 to |v|
        invariant MovedSoFar(m, v, edgeSet, i, j)
      {
        MovedStep(m, v, edgeSet, i, j);
        MovedCodeIs(v, i, j);
        if m[i][j] {
          if v[i] < v[j] {
            edgeSet := edgeSet + {v[i] * |v| + v[j]};
          } else {
            edgeSet := edgeSet + {v[j] * |v| + v[i]};
          }
        }
      }
      MovedRowDone(m, v, edgeSet, i);
    }
    MovedAll(m, v, edgeSet);
  }

  lemma {:induction false} MovedCodeIs(v: seq<nat>, i: nat, j: nat)
    requires i < |v| && j < |v|
    ensures MovedCode(v, i, j) == if v[i] < v[j] then v[i] * |v| + v[j] else v[j] * |v| + v[i]
  {
  }

  lemma {:induction false} NothingMoved(m: Matrix, v: seq<nat>)
    requires Square(m, |v|)
    ensures MovedSoFar(m, v, {}, 0, 1)
  {
  }

  lemma {:induction false} AllPermutations(n: nat)
    ensures forall p :: p in Extensions(n, [], 0) <==> IsPerm(p, n)
  {
    forall p ensures p in Extensions(n, [], 0) <==> IsPerm(p, n) {
      ExtensionsComplete(n, [], 0, p);
    }
  }

  /** Marks the edge sets of all graphs isomorphic to m. */
  method CountAllIsomorphism(m: Matrix, n: nat, s0: set<set<nat>>) returns (s: set<set<nat>>)
    requires Simple(m, n)
    ensures forall t :: Simple(t, n) ==> (Codes(t, n) in s <==> Codes(t, n) in s0 || Isomorphic(m, t, n))
  {
    hide Codes, Relabel, Extensions;
    var use := new bool[n](_ => false);
    var vec := GetFullPermutation(n, [], use, []);
    AllPermutations(n);
    s := s0;
    for k := 0 to |vec|
      invariant forall t :: Simple(t, n) ==>
        (Codes(t, n) in s <==> Codes(t, n) in s0 || exists l :: 0 <= l < k && SameAs(m, vec, l, t, n))
    {
      assert vec[k] in vec;
      var edgeSet := EdgeSetOf(m, vec[k]);
      s := s + {edgeSet};
      forall t | Simple(t, n) ensures Codes(t, n) == edgeSet <==> SameAs(m, vec, k, t, n) {
        OneRenaming(m, vec, k, t, n);
      }
    }
    forall t | Simple(t, n) ensures (exists l :: 0 <= l < |vec| && SameAs(m, vec, l, t, n)) <==> Isomorphic(m, t, n) {
      ListedRenamings(m, vec, t, n);
    }
  }

  ghost predicate SameAs(m: Matrix, vec: seq<seq<nat>>, l: nat, t: Matrix, n: nat)
    requires Square(m, n) && l < |vec|
  {
    IsPerm(vec[l], n) && t == Relabel(m, vec[l])
  }

  lemma {:induction false} OneRenaming(m: Matrix, vec: seq<seq<nat>>, k: nat, t: Matrix, n: nat)
    requires Simple(m, n) && Simple(t, n) && k < |vec| && IsPerm(vec[k], n)
    ensures Codes(t, n) == Codes(Relabel(m, vec[k]), n) <==> SameAs(m, vec, k, t, n)
  {
    RelabelSimple(m, vec[k]);
    if Codes(t, n) == Codes(Relabel(m, vec[k]), n) {
      CodesDecide(t, Relabel(m, vec[k]), n);
    }
  }

  lemma {:induction false} ListedRenamings(m: Matrix, vec: seq<seq<nat>>, t: Matrix, n: nat)
    requires Square(m, n) && forall p :: p in vec <==> IsPerm(p, n)
    ensures (exists l :: 0 <= l < |vec| && SameAs(m, vec, l, t, n)) <==> Isomorphic(m, t, n)
  {
    hide Relabel;
    if Isomorphic(m, t, n) {
      var v :| IsPerm(v, n) && t == Relabel(m, v);
      var l :| 0 <= l < |vec| && vec[l] == v;
      assert SameAs(m, vec, l, t, n);
    }
  }

  // ----- the generator -----

  /** Emitted graphs are connected and pairwise non-isomorphic, and `s` marks exactly the
      graphs isomorphic to one of them. */
  ghost predicate Emitted(n: nat, vec: seq<Matrix>, s: set<set<nat>>) {
    && (forall k :: 0 <= k < |vec| ==> Simple(vec[k], n) && IsConnected(vec[k]))
    && (forall a, b :: 0 <= a < b < |vec| ==> !Isomorphic(vec[a], vec[b], n))
    && (forall t :: Simple(t, n) ==> (Codes(t, n) in s <==> Represented(n, vec, t)))
  }

  ghost predicate Represented(n: nat, vec: seq<Matrix>, t: Matrix) {
    exists k :: 0 <= k < |vec| && Square(vec[k], n) && Isomorphic(vec[k], t, n)
  }

  /** Position (a, b) is decided before (i, j) is reached. */
  predicate Before(a: nat, b: nat, i: nat, j: nat) {
    a < i || (a == i && b < j)
  }

  /** t makes the same choices as p before (i, j). */
  ghost predicate Agrees(n: nat, t: Matrix, p: Matrix, i: nat, j: nat)
    requires Square(t, n) && Square(p, n)
  {
    forall a, b :: 0 <= a < b < n && Before(a, b, i, j) ==> t[a][b] == p[a][b]
  }

  /** Nothing is chosen from (i, j) on. */
  ghost predicate Open(n: nat, p: Matrix, i: nat, j: nat)
    requires Square(p, n)
  {
    forall a, b :: 0 <= a < b < n && !Before(a, b, i, j) ==> !p[a][b]
  }

  /** Every connected graph that continues p has a representative. */
  ghost predicate Done(n: nat, vec: seq<Matrix>, p: Matrix, i: nat, j: nat)
    requires Square(p, n)
  {
    forall t :: Simple(t, n) && IsConnected(t) && Agrees(n, t, p, i, j) ==> Represented(n, vec, t)
  }

  lemma {:induction false} RepresentedLater(n: nat, vec: seq<Matrix>, vec': seq<Matrix>, t: Matrix)
    requires Represented(n, vec, t) && vec <= vec'
    ensures Represented(n, vec', t)
  {
    var k :| 0 <= k < |vec| && Square(vec[k], n) && Isomorphic(vec[k], t, n);
    assert vec'[k] == vec[k];
  }

  lemma {:induction false} DoneLater(n: nat, vec: seq<Matrix>, vec': seq<Matrix>, p: Matrix, i: nat, j: nat)
    requires Square(p, n) && Done(n, vec, p, i, j) && vec <= vec'
    ensures Done(n, vec', p, i, j)
  {
    hide Represented;
    forall t | Simple(t, n) && IsConnected(t) && Agrees(n, t, p, i, j) ensures Represented(n, vec', t) {
      RepresentedLater(n, vec, vec', t);
    }
  }

  /** A new connected graph that is not marked joins the list. */
  lemma {:induction false} EmitOne(n: nat, vec: seq<Matrix>, s: set<set<nat>>, p: Matrix, s': set<set<nat>>)
    requires Emitted(n, vec, s) && Simple(p, n) && IsConnected(p) && Codes(p, n) !in s
    requires forall t :: Simple(t, n) ==> (Codes(t, n) in s' <==> Codes(t, n) in s || Isomorphic(p, t, n))
    ensures Emitted(n, vec + [p], s')
  {
    hide Codes, Isomorphic, IsConnected;
    var vec' := vec + [p];
    forall a, b | 0 <= a < b < |vec'| ensures !Isomorphic(vec'[a], vec'[b], n) {
      assert vec'[a] == vec[a];
      if b == |vec| {
        NoneRepresents(n, vec, p, a);
      }
    }
    forall t | Simple(t, n) ensures Represented(n, vec', t) <==> Represented(n, vec, t) || Isomorphic(p, t, n) {
      OneMoreRepresents(n, vec, p, t);
    }
  }

  lemma {:induction false} NoneRepresents(n: nat, vec: seq<Matrix>, t: Matrix, k: nat)
    requires !Represented(n, vec, t) && k < |vec| && Square(vec[k], n)
    ensures !Isomorphic(vec[k], t, n)
  {
  }

  lemma {:induction false} OneMoreRepresents(n: nat, vec: seq<Matrix>, p: Matrix, t: Matrix)
    requires Square(p, n)
    ensures Represented(n, vec + [p], t) <==> Represented(n, vec, t) || Isomorphic(p, t, n)
  {
    hide Isomorphic;
    var vec' := vec + [p];
    if Represented(n, vec, t) {
      RepresentedLater(n, vec, vec', t);
    }
    if Isomorphic(p, t, n) {
      assert vec'[|vec|] == p;
    }
    if Represented(n, vec', t) {
      var k :| 0 <= k < |vec'| && Square(vec'[k], n) && Isomorphic(vec'[k], t, n);
      assert k < |vec| ==> vec[k] == vec'[k];
    }
  }

  /** With everything decided only p itself is left. */
  lemma {:induction false} LeafDone(n: nat, vec: seq<Matrix>, p: Matrix, i: nat, j: nat)
    requires Simple(p, n) && i + 1 == n && (IsConnected(p) ==> Represented(n, vec, p))
    ensures Done(n, vec, p, i, j)
  {
    hide IsConnected, Represented;
    forall t | Simple(t, n) && Agrees(n, t, p, i, j) ensures t == p {
      forall a | 0 <= a < n ensures t[a] == p[a] {
        forall b | 0 <= b < n ensures t[a][b] == p[a][b] {
          assert a < b ==> Before(a, b, i, j);
          assert b < a ==> Before(b, a, i, j);
        }
      }
    }
  }

  /** Both choices for (i, j) cover every continuation. */
  lemma {:induction false} BranchDone(n: nat, vec: seq<Matrix>, p: Matrix, used: Matrix, i: nat, j: nat, ni: nat, nj: nat)
    requires Simple(p, n) && i < j < n && Square(used, n)
    requires forall a, b :: 0 <= a < b < n ==> (used[a][b] <==> p[a][b] || (a == i && b == j))
    requires !p[i][j] && forall a, b :: 0 <= a < b < n ==> (Before(a, b, ni, nj) <==> Before(a, b, i, j) || (a == i && b == j))
    requires Done(n, vec, used, ni, nj) && Done(n, vec, p, ni, nj)
    ensures Done(n, vec, p, i, j)
  {
    hide IsConnected, Represented, Before;
    forall t | Simple(t, n) && IsConnected(t) && Agrees(n, t, p, i, j) ensures Represented(n, vec, t) {
      if t[i][j] {
        assert Agrees(n, t, used, ni, nj);
      } else {
        assert Agrees(n, t, p, ni, nj);
      }
    }
  }

  lemma {:induction false} NextPosition(n: nat, i: nat, j: nat, ni: nat, nj: nat)
    requires i < j < n && (if j == n - 1 then ni == i + 1 && nj == i + 2 else ni == i && nj == j + 1)
    ensures forall a: nat, b: nat :: a < b < n ==> (Before(a, b, ni, nj) <==> Before(a, b, i, j) || (a == i && b == j))
  {
  }

  /** Inserting or erasing the code of (i, j) follows setting the entry. */
  lemma {:induction false} CodesFollow(n: nat, p: Matrix, used: Matrix, i: nat, j: nat)
    requires Square(p, n) && Square(used, n) && i < j < n && !p[i][j]
    requires forall a, b :: 0 <= a < b < n ==> (used[a][b] <==> p[a][b] || (a == i && b == j))
    ensures Codes(used, n) == Codes(p, n) + {Code(i, j, n)}
    ensures Codes(p, n) == Codes(used, n) - {Code(i, j, n)}
  {
    hide Codes, Code;
    forall e ensures e in Codes(used, n) <==> e in Codes(p, n) || e == Code(i, j, n) {
      CodesExact(used, n, e);
      CodesExact(p, n, e);
      if IsCode(used, n, e) {
        var a: nat, b: nat :| Coded(used, n, e, a, b);
        assert (a == i && b == j) || Coded(p, n, e, a, b);
      }
      if IsCode(p, n, e) {
        var a: nat, b: nat :| Coded(p, n, e, a, b);
        assert Coded(used, n, e, a, b);
      }
      if e == Code(i, j, n) {
        assert Coded(used, n, e, i, j);
      }
    }
    CodesHold(p, n, i, j);
  }

  class MotifGenerator {
    const size: nat
    var s: set<set<nat>>

    constructor (inputSize: nat)
      ensures size == inputSize && s == {}
    {
      size, s := inputSize, {};
    }

    method GenerateAllPattern(vec0: seq<Matrix>, edgeSet0: set<nat>, p: Pattern, i: nat, j: nat) returns (vec: seq<Matrix>)
      requires size > 0 && p.Valid() && p.size == size && Simple(p.adjMat, size) && edgeSet0 == Codes(p.adjMat, size)
      requires i < size && i < j && (i + 1 < size ==> j < size) && Open(size, p.adjMat, i, j)
      requires Emitted(size, vec0, s)
      modifies this, p
      ensures p.Valid() && p.adjMat == old(p.adjMat) && vec0 <= vec
      ensures Emitted(size, vec, s) && Done(size, vec, p.adjMat, i, j)
      decreases size - i, size + 1 - j
    {
      hide Codes, IsConnected, Emitted, Done, Represented, Isomorphic, Before;
      var edgeSet := edgeSet0;
      ghost var m := p.adjMat;
      if i == size - 1 {
        vec := TryEmit(vec0, edgeSet, p);
        LeafDone(size, vec, m, i, j);
        return;
      }
      var ni, nj := if j == size - 1 then i + 1 else i, if j == size - 1 then i + 2 else j + 1;
      NextPosition(size, i, j, ni, nj);
      edgeSet := edgeSet + {i * size + j};
      p.AddEdge(i, j);
      ghost var used := p.adjMat;
      UsedIsSimple(size, m, used, i, j, ni, nj);
      CodesFollow(size, m, used, i, j);
      vec := GenerateAllPattern(vec0, edgeSet, p, ni, nj);
      p.DelEdge(i, j);
      edgeSet := edgeSet - {i * size + j};
      EntriesBack(size, m, used, p.adjMat, i, j);
      ghost var first := vec;
      vec := GenerateAllPattern(vec, edgeSet, p, ni, nj);
      DoneLater(size, first, vec, used, ni, nj);
      BranchDone(size, vec, m, used, i, j, ni, nj);
    }

    /** A leaf: emit the graph unless it is disconnected or marked. */
    method TryEmit(vec0: seq<Matrix>, edgeSet: set<nat>, p: Pattern) returns (vec: seq<Matrix>)
      requires size > 0 && p.Valid() && p.size == size && Simple(p.adjMat, size) && edgeSet == Codes(p.adjMat, size)
      requires Emitted(size, vec0, s)
      modifies this
      ensures vec0 <= vec && Emitted(size, vec, s) && (IsConnected(p.adjMat) ==> Represented(size, vec, p.adjMat))
    {
      hide Codes, IsConnected, Represented, Isomorphic;
      vec := vec0;
      var m := p.adjMat;
      IsomorphicSelf(m, size);
      OneMoreRepresents(size, vec, m, m);
      if edgeSet !in s {
        var connected := p.CheckConnected();
        if connected {
          var marked := CountAllIsomorphism(m, size, s);
          EmitOne(size, vec, s, m, marked);
          vec := vec + [m];
          s := marked;
        }
      }
    }

    /** Exactly one representative of every isomorphism class of connected graphs. */
    method Generate() returns (vec: seq<Matrix>)
      requires size > 0
      modifies this
      ensures forall k :: 0 <= k < |vec| ==> Simple(vec[k], size) && IsConnected(vec[k])
      ensures forall a, b :: 0 <= a < |vec| && 0 <= b < |vec| && a != b ==>
        Simple(vec[a], size) && !Isomorphic(vec[a], vec[b], size)
      ensures forall t :: Simple(t, size) && IsConnected(t) ==> Represented(size, vec, t)
    {
      hide Codes, IsConnected, Represented, Isomorphic;
      s := {};
      var p := new Pattern(size);
      NoCodes(size);
      NothingEmitted(size);
      vec := GenerateAllPattern([], {}, p, 0, 1);
      forall t | Simple(t, size) && IsConnected(t) ensures Represented(size, vec, t) {
        assert Agrees(size, t, p.adjMat, 0, 1);
      }
      forall a, b | 0 <= a < |vec| && 0 <= b < |vec| && a != b ensures !Isomorphic(vec[a], vec[b], size) {
        if b < a && Isomorphic(vec[a], vec[b], size) {
          IsomorphicBack(vec[a], vec[b], size);
        }
      }
    }
  }

  lemma {:induction false} NoCodes(n: nat)
    ensures Codes(NoEdges(n), n) == {} && Simple(NoEdges(n), n) && Open(n, NoEdges(n), 0, 1)
  {
    forall e ensures !IsCode(NoEdges(n), n, e) {}
  }

  lemma {:induction false} NothingEmitted(n: nat)
    ensures Emitted(n, [], {})
  {
  }

  lemma {:induction false} UsedIsSimple(n: nat, m: Matrix, used: Matrix, i: nat, j: nat, ni: nat, nj: nat)
    requires Simple(m, n) && i < j < n && Open(n, m, i, j)
    requires used == SetEntry(SetEntry(m, i, j, true), j, i, true)
    requires forall a: nat, b: nat :: a < b < n ==> (Before(a, b, ni, nj) <==> Before(a, b, i, j) || (a == i && b == j))
    ensures Simple(used, n) && !m[i][j] && Open(n, used, ni, nj) && Open(n, m, ni, nj)
    ensures forall a, b :: 0 <= a < b < n ==> (used[a][b] <==> m[a][b] || (a == i && b == j))
  {
  }

  lemma {:induction false} EntriesBack(n: nat, m: Matrix, used: Matrix, back: Matrix, i: nat, j: nat)
    requires Simple(m, n) && i < j < n && !m[i][j]
    requires used == SetEntry(SetEntry(m, i, j, true), j, i, true)
    requires back == SetEntry(SetEntry(used, i, j, false), j, i, false)
    ensures back == m
  {
    forall a | 0 <= a < n ensures back[a] == m[a] {
      forall b | 0 <= b < n ensures back[a][b] == m[a][b] {}
    }
  }
}
