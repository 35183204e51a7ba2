/** Enumerating permutations, filtering automorphisms, and cutting a permutation into cycles. */
module Permutations {
  import opened Arithmetic
  import opened Counting
  import opened Patterns
  import opened Symmetry

  ghost predicate Partial(t: seq<nat>, n: nat) {
    |t| <= n && Injective(t) && forall i :: 0 <= i < |t| ==> t[i] < n
  }

  /** The permutations that start with t and continue with an entry of at least i, in order. */
  ghost function Extensions(n: nat, t: seq<nat>, i: nat): seq<seq<nat>>
    requires Partial(t, n)
    decreases n - |t|, n - i
  {
    if |t| == n then
      [t]
    else if i >= n then
      []
    else if i in t then
      Extensions(n, t, i + 1)
    else
      Extensions(n, t + [i], 0) + Extensions(n, t, i + 1)
  }

  lemma {:induction false} ExtensionsComplete(n: nat, t: seq<nat>, i: nat, p: seq<nat>)
    requires Partial(t, n)
    ensures p in Extensions(n, t, i) <==>
      IsPerm(p, n) && t <= p && (|t| < n ==> p[|t|] >= i)
    decreases n - |t|, n - i
  {
    if |t| == n {
      if IsPerm(p, n) && t <= p {
        assert p == t;
      }
    } else if i < n {
      ExtensionsComplete(n, t, i + 1, p);
      if i !in t {
        ExtensionsComplete(n, t + [i], 0, p);
        if IsPerm(p, n) && t <= p && p[|t|] == i {
          assert t + [i] <= p;
        }
      }
    }
  }

  /** a comes before b in the order of the first entry in which they differ. */
  ghost predicate LexLess(a: seq<nat>, b: seq<nat>) {
    exists d: nat :: DiffersAt(a, b, d) && a[d] < b[d]
  }

  ghost predicate DiffersAt(a: seq<nat>, b: seq<nat>, d: nat) {
    d < |a| && d < |b| && a[..d] == b[..d] && a[d] != b[d]
  }

  ghost predicate LexSorted(s: seq<seq<nat>>) {
    forall x, y :: 0 <= x < y < |s| ==> LexLess(s[x], s[y])
  }

  lemma {:induction false} LexSortedDistinct(s: seq<seq<nat>>)
    requires LexSorted(s)
    ensures Distinct(s)
  {
    forall x, y | 0 <= x < y < |s| ensures s[x] != s[y] {
      assert LexLess(s[x], s[y]);
    }
  }

  /** The enumeration goes through the permutations in lexicographic order. */
  lemma {:induction false} ExtensionsSorted(n: nat, t: seq<nat>, i: nat)
    requires Partial(t, n)
    ensures LexSorted(Extensions(n, t, i))
    decreases n - |t|, n - i
  {
    hide LexLess;
    if |t| < n && i < n {
      ExtensionsSorted(n, t, i + 1);
      if i !in t {
        ExtensionsSorted(n, t + [i], 0);
        var a, b := Extensions(n, t + [i], 0), Extensions(n, t, i + 1);
        forall x, y | 0 <= x < |a| && 0 <= y < |b| ensures LexLess(a[x], b[y]) {
          assert a[x] in a && b[y] in b;
          SmallerBranch(n, t, i, a[x], b[y]);
        }
      }
    }
  }

  lemma {:induction false} SmallerBranch(n: nat, t: seq<nat>, i: nat, p: seq<nat>, r: seq<nat>)
    requires Partial(t, n) && |t| < n && i < n && i !in t
    requires p in Extensions(n, t + [i], 0) && r in Extensions(n, t, i + 1)
    ensures LexLess(p, r)
  {
    hide Extensions;
    ExtensionsComplete(n, t + [i], 0, p);
    ExtensionsComplete(n, t, i + 1, r);
    assert p[..|t|] == t == r[..|t|] && p[|t|] == i;
    assert DiffersAt(p, r, |t|);
  }

  function Factorial(n: nat): nat {
    if n == 0 then 1 else n * Factorial(n - 1)
  }

  ghost function Free(n: nat, t: seq<nat>, i: nat): set<nat> {
    set x: nat | x in Below(n) && x >= i && x !in t
  }

  lemma {:induction false} FreeStep(n: nat, t: seq<nat>, i: nat)
    ensures if i >= n then |Free(n, t, i)| == 0
      else |Free(n, t, i)| == |Free(n, t, i + 1)| + if i in t then 0 else 1
  {
    if i >= n {
      assert Free(n, t, i) == {};
    } else {
      assert Free(n, t, i) == if i in t then Free(n, t, i + 1) else Free(n, t, i + 1) + {i};
    }
  }

  lemma {:induction false} ExtensionsCount(n: nat, t: seq<nat>, i: nat)
    requires Partial(t, n) && |t| < n
    ensures |Extensions(n, t, i)| == |Free(n, t, i)| * Factorial(n - |t| - 1)
    decreases n - |t|, n - i
  {
    hide Free, Factorial;
    FreeStep(n, t, i);
    if i < n {
      ExtensionsCount(n, t, i + 1);
      if i !in t {
        AllExtensionsCount(n, t + [i]);
        OneMore(|Free(n, t, i + 1)|, Factorial(n - |t| - 1));
      }
    }
  }

  /** The source asserts that the full enumeration has n! entries. */
  lemma {:induction false} AllExtensionsCount(n: nat, t: seq<nat>)
    requires Partial(t, n)
    ensures |Extensions(n, t, 0)| == Factorial(n - |t|)
    decreases n - |t|, n + 1
  {
    if |t| < n {
      ExtensionsCount(n, t, 0);
      assert Free(n, t, 0) == Below(n) - Elements(t);
      assert Elements(t) <= Below(n);
      DistinctSize(t);
      assert |Below(n) - Elements(t)| == n - |t|;
    }
  }

  lemma {:induction false} ExtensionsEnd(n: nat, t: seq<nat>)
    requires Partial(t, n)
    ensures |t| == n ==> Extensions(n, t, 0) == [t]
    ensures |t| < n ==> Extensions(n, t, n) == []
  {
  }

  lemma {:induction false} ExtensionsStep(n: nat, t: seq<nat>, i: nat)
    requires Partial(t, n) && |t| < n && i < n
    ensures Extensions(n, t, i)
      == if i in t then Extensions(n, t, i + 1) else Extensions(n, t + [i], 0) + Extensions(n, t, i + 1)
  {
  }

  method GetFullPermutation(n: nat, vec0: seq<seq<nat>>, use: array<bool>, tmp: seq<nat>)
    returns (vec: seq<seq<nat>>)
    requires use.Length == n && Partial(tmp, n)
    requires forall v :: 0 <= v < n ==> use[v] == (v in tmp)
    modifies use
    ensures use[..] == old(use[..])
    ensures vec == vec0 + Extensions(n, tmp, 0)
    decreases n - |tmp|
  {
    hide Extensions;
    ExtensionsEnd(n, tmp);
    vec := vec0;
    if |tmp| == n {
      return vec + [tmp];
    }
    ghost var was := use[..];
    for i := 0 to n
      invariant use[..] == was
      invariant forall v :: 0 <= v < n ==> use[v] == (v in tmp)
      invariant vec + Extensions(n, tmp, i) == vec0 + Extensions(n, tmp, 0)
    {
      ExtensionsStep(n, tmp, i);
      if !use[i] {
        use[i] := true;
        ghost var sofar := vec;
        vec := GetFullPermutation(n, vec, use, tmp + [i]);
        use[i] := false;
        assert use[..] == was;
        assert vec + Extensions(n, tmp, i + 1)
          == sofar + (Extensions(n, tmp + [i], 0) + Extensions(n, tmp, i + 1));
      }
    }
  }

  method IsIsomorphism(q: Query, v: seq<nat>) returns (flag: bool)
    requires q.Valid() && IsPerm(v, q.n)
    ensures flag <==> v in Automorphisms(q)
  {
    flag := true;
    for i := 0 to q.n
      invariant flag <==> forall x, y {:trigger v[x], v[y]} :: 0 <= x < i && x < y < q.n && q.adj[x][y] ==> q.adj[v[x]][v[y]]
    {
      for j := i + 1 to q.n
        invariant flag <==>
          && (forall x, y {:trigger v[x], v[y]} :: 0 <= x < i && x < y < q.n && q.adj[x][y] ==> q.adj[v[x]][v[y]])
          && (forall y {:trigger v[y]} :: i < y < j && q.adj[i][y] ==> q.adj[v[i]][v[y]])
      {
        if q.adj[i][j] && !q.adj[v[i]][v[j]] {
          flag := false;
        }
      }
    }
    if flag {
      EdgesSuffice(q, v);
    }
  }

  /** The automorphisms among the first entries of vec. */
  ghost function Chosen(q: Query, vec: seq<seq<nat>>): seq<seq<nat>>
    requires q.Valid()
  {
    if |vec| == 0 then []
    else Chosen(q, vec[..|vec| - 1]) + if vec[|vec| - 1] in Automorphisms(q) then [vec[|vec| - 1]] else []
  }

  lemma {:induction false} ChosenMembers(q: Query, vec: seq<seq<nat>>, p: seq<nat>)
    requires q.Valid()
    ensures p in Chosen(q, vec) <==> p in vec && p in Automorphisms(q)
  {
    hide Automorphisms;
    if |vec| > 0 {
      ChosenMembers(q, vec[..|vec| - 1], p);
      assert vec == vec[..|vec| - 1] + [vec[|vec| - 1]];
    }
  }

  lemma {:induction false} ChosenSorted(q: Query, vec: seq<seq<nat>>)
    requires q.Valid() && LexSorted(vec)
    ensures LexSorted(Chosen(q, vec))
  {
    hide Automorphisms, LexLess;
    var n := |vec| - 1;
    if |vec| > 0 {
      ChosenSorted(q, vec[..n]);
      var r := Chosen(q, vec[..n]);
      forall x | 0 <= x < |r| ensures LexLess(r[x], vec[n]) {
        ChosenMembers(q, vec[..n], r[x]);
        var k :| 0 <= k < n && vec[..n][k] == r[x];
        assert LexLess(vec[k], vec[n]);
      }
    }
  }

  /** The automorphisms in lexicographic order. */
  ghost function AutList(q: Query): seq<seq<nat>>
    requires q.Valid()
  {
    Chosen(q, Extensions(q.n, [], 0))
  }

  lemma {:induction false} AutListIs(q: Query)
    requires q.Valid()
    ensures Elements(AutList(q)) == Automorphisms(q) && LexSorted(AutList(q)) && Distinct(AutList(q))
  {
    hide LexSorted, Preserves, Chosen, Extensions;
    ExtensionsSorted(q.n, [], 0);
    ChosenSorted(q, Extensions(q.n, [], 0));
    LexSortedDistinct(AutList(q));
    forall p ensures p in AutList(q) <==> p in Automorphisms(q) {
      ChosenMembers(q, Extensions(q.n, [], 0), p);
      ExtensionsComplete(q.n, [], 0, p);
    }
  }

  /** All automorphisms of the pattern, each once, in lexicographic order. */
  method GetIsomorphismVec(q: Query) returns (isos: seq<seq<nat>>)
    requires q.Valid()
    ensures isos == AutList(q)
    ensures Elements(isos) == Automorphisms(q) && LexSorted(isos) && Distinct(isos)
  {
    hide LexSorted, Preserves;
    var use := new bool[q.n](_ => false);
    var vec := GetFullPermutation(q.n, [], use, []);
    assert vec == Extensions(q.n, [], 0);
    forall k | 0 <= k < |vec| ensures IsPerm(vec[k], q.n) {
      ExtensionsComplete(q.n, [], 0, vec[k]);
    }
    isos := KeepIsomorphisms(q, vec);
    AutListIs(q);
  }

  method KeepIsomorphisms(q: Query, vec: seq<seq<nat>>) returns (isos: seq<seq<nat>>)
    requires q.Valid() && forall k :: 0 <= k < |vec| ==> IsPerm(vec[k], q.n)
    ensures isos == Chosen(q, vec)
  {
    isos := [];
    for k := 0 to |vec|
      invariant isos == Chosen(q, vec[..k])
    {
      assert vec[..k + 1][..k] == vec[..k];
      var flag := IsIsomorphism(q, vec[k]);
      if flag {
        isos := isos + [vec[k]];
      }
    }
    assert vec[..|vec|] == vec;
  }

  // ----- cycles -----

  /** c lists one cycle of p, starting from its least element. */
  ghost predicate IsCycle(p: seq<nat>, c: seq<nat>)
    requires IsPerm(p, |p|)
  {
    && |c| > 0 && Injective(c)
    && (forall t :: 0 <= t < |c| ==> c[0] <= c[t] < |p|)
    && (forall t :: 0 <= t < |c| - 1 ==> p[c[t]] == c[t + 1])
    && p[c[|c| - 1]] == c[0]
  }

  /** The cycles of p in the order of their least elements: each index below |p| lies on
      exactly one of them. */
  ghost predicate AreCycles(p: seq<nat>, cs: seq<seq<nat>>)
    requires IsPerm(p, |p|)
  {
    && (forall k :: 0 <= k < |cs| ==> IsCycle(p, cs[k]))
    && (forall k, l, v :: 0 <= k < l < |cs| && v in cs[k] ==> v !in cs[l])
    && (forall v: nat :: v < |p| ==> OnSome(cs, v))
    && (forall k, l :: 0 <= k < l < |cs| ==> cs[k][0] < cs[l][0])
  }

  ghost predicate OnSome(cs: seq<seq<nat>>, v: nat) {
    exists k :: 0 <= k < |cs| && v in cs[k]
  }

  ghost predicate IsTrail(p: seq<nat>, c: seq<nat>)
    requires IsPerm(p, |p|)
  {
    && |c| > 0 && Injective(c)
    && (forall t :: 0 <= t < |c| ==> c[t] < |p|)
    && (forall t :: 0 <= t < |c| - 1 ==> p[c[t]] == c[t + 1])
  }

  lemma {:induction false} InjectiveFits(d: seq<nat>, n: nat)
    requires Injective(d) && forall t :: 0 <= t < |d| ==> d[t] < n
    ensures |d| <= n
  {
    DistinctSize(d);
    SubsetSize(Elements(d), Below(n));
  }

  lemma {:induction false} TrailGrows(p: seq<nat>, c: seq<nat>, x: nat)
    requires IsPerm(p, |p|) && IsTrail(p, c) && x == p[c[|c| - 1]] && x !in c
    ensures IsTrail(p, c + [x]) && |c| + 1 <= |p|
  {
    var d := c + [x];
    assert x < |p|;
    forall t | 0 <= t < |d| - 1 ensures p[d[t]] == d[t + 1] {
      assert t < |c| - 1 ==> p[c[t]] == c[t + 1];
    }
    InjectiveFits(d, |p|);
  }

  lemma {:induction false} TrailCloses(p: seq<nat>, c: seq<nat>)
    requires IsPerm(p, |p|) && IsTrail(p, c) && p[c[|c| - 1]] in c
    ensures p[c[|c| - 1]] == c[0]
  {
    forall t | 0 < t < |c| ensures p[c[|c| - 1]] != c[t] {
      assert p[c[t - 1]] == c[t] && c[t - 1] != c[|c| - 1];
    }
  }

  /** What the finished cycles and the use marks say about each other. */
  ghost predicate Traced(p: seq<nat>, res: seq<seq<nat>>, use: seq<bool>)
    requires IsPerm(p, |p|)
  {
    && |use| == |p|
    && (forall v: nat :: v < |p| ==> (use[v] <==> OnSome(res, v)))
    && (forall k :: 0 <= k < |res| ==> IsCycle(p, res[k]))
    && (forall k, l, v :: 0 <= k < l < |res| && v in res[k] ==> v !in res[l])
    && (forall k, l :: 0 <= k < l < |res| ==> res[k][0] < res[l][0])
  }

  /** A trail off the finished cycles that runs into a mark has come back to its start. */
  lemma {:induction false} TraceAdds(p: seq<nat>, res: seq<seq<nat>>, was: seq<bool>, use: seq<bool>, c: seq<nat>)
    requires IsPerm(p, |p|) && Traced(p, res, was) && IsTrail(p, c) && |use| == |p|
    requires forall v: nat :: v < |p| ==> (use[v] <==> was[v] || v in c)
    requires forall v :: v in c ==> !was[v]
    requires p[c[|c| - 1]] < |p| && use[p[c[|c| - 1]]] && forall v: nat :: v < c[0] ==> was[v]
    requires forall k :: 0 <= k < |res| ==> res[k][0] < c[0]
    ensures Traced(p, res + [c], use)
  {
    NotOnOther(p, res, was, c, p[c[|c| - 1]]);
    TrailCloses(p, c);
    TrailIsCycle(p, c, was);
    hide IsPerm, IsCycle, IsTrail;
    forall v: nat | v < |p| ensures use[v] <==> OnSome(res + [c], v) {
      GrowOnSome(res, c, v);
    }
    forall k, v | 0 <= k < |res| && v in res[k] ensures v !in c {
      OnOne(p, res, k, v);
    }
  }

  lemma {:induction false} OnOne(p: seq<nat>, cs: seq<seq<nat>>, k: nat, v: nat)
    requires IsPerm(p, |p|) && k < |cs| && IsCycle(p, cs[k]) && v in cs[k]
    ensures v < |p| && OnSome(cs, v)
  {
  }

  lemma {:induction false} TrailIsCycle(p: seq<nat>, c: seq<nat>, was: seq<bool>)
    requires IsPerm(p, |p|) && IsTrail(p, c) && p[c[|c| - 1]] == c[0] && |was| == |p|
    requires (forall v :: v in c ==> !was[v]) && forall v: nat :: v < c[0] ==> was[v]
    ensures IsCycle(p, c)
  {
    forall t | 0 <= t < |c| ensures c[0] <= c[t] {
      assert c[t] in c && !was[c[t]];
    }
  }

  method CalcPermutationGroup(vec: seq<nat>) returns (res: seq<seq<nat>>)
    requires IsPerm(vec, |vec|)
    ensures AreCycles(vec, res)
  {
    hide OnSome, Traced, AreCycles, IsCycle;
    NothingTraced(vec);
    var use := seq(|vec|, _ => false);
    res := [];
    for i := 0 to |vec|
      invariant |use| == |vec| && Traced(vec, res, use)
      invariant forall v: nat :: v < i ==> use[v]
      invariant forall k :: 0 <= k < |res| ==> |res[k]| > 0 && res[k][0] < i
    {
      if !use[i] {
        var tmp: seq<nat> := [i];
        ghost var was := use;
        use := use[i := true];
        var x := vec[i];
        while !use[x]
          invariant |use| == |vec| && IsTrail(vec, tmp) && tmp[0] == i
          invariant x == vec[tmp[|tmp| - 1]] && x < |vec|
          invariant forall v: nat :: v < |vec| ==> (use[v] <==> was[v] || v in tmp)
          invariant forall v :: v in tmp ==> !was[v]
          decreases |vec| - |tmp|
        {
          TrailGrows(vec, tmp, x);
          use := use[x := true];
          tmp := tmp + [x];
          x := vec[x];
        }
        TraceAdds(vec, res, was, use, tmp);
        res := res + [tmp];
      }
    }
    AllTraced(vec, res, use);
  }

  lemma {:induction false} NothingTraced(p: seq<nat>)
    requires IsPerm(p, |p|)
    ensures Traced(p, [], seq(|p|, _ => false))
  {
  }

  lemma {:induction false} AllTraced(p: seq<nat>, cs: seq<seq<nat>>, use: seq<bool>)
    requires IsPerm(p, |p|) && Traced(p, cs, use) && forall v: nat :: v < |p| ==> use[v]
    ensures AreCycles(p, cs)
  {
  }

  lemma {:induction false} GrowOnSome(cs: seq<seq<nat>>, c: seq<nat>, v: nat)
    ensures OnSome(cs + [c], v) <==> OnSome(cs, v) || v in c
  {
    if OnSome(cs, v) {
      var k :| 0 <= k < |cs| && v in cs[k];
      assert (cs + [c])[k] == cs[k];
    }
    if v in c {
      assert (cs + [c])[|cs|] == c;
    }
  }

  /** What p sends into a cycle was on it already. */
  lemma {:induction false} BackOnCycle(p: seq<nat>, c: seq<nat>, u: nat)
    requires IsPerm(p, |p|) && IsCycle(p, c) && u < |p| && p[u] in c
    ensures u in c
  {
    var t :| 0 <= t < |c| && c[t] == p[u];
    var before := c[if t == 0 then |c| - 1 else t - 1];
    assert p[before] == p[u];
    assert before == u;
  }

  lemma {:induction false} BackOnSome(p: seq<nat>, cs: seq<seq<nat>>, u: nat)
    requires IsPerm(p, |p|) && u < |p| && forall k :: 0 <= k < |cs| ==> IsCycle(p, cs[k])
    ensures OnSome(cs, p[u]) ==> OnSome(cs, u)
  {
    hide IsCycle, IsPerm;
    if OnSome(cs, p[u]) {
      var k :| 0 <= k < |cs| && p[u] in cs[k];
      BackOnCycle(p, cs[k], u);
    }
  }

  /** Old cycles are closed under p, so a trail that starts off them stays off them. */
  lemma {:induction false} NotOnOther(p: seq<nat>, cs: seq<seq<nat>>, was: seq<bool>, c: seq<nat>, x: nat)
    requires IsPerm(p, |p|) && IsTrail(p, c) && |was| == |p| && x == p[c[|c| - 1]]
    requires forall k :: 0 <= k < |cs| ==> IsCycle(p, cs[k])
    requires forall v: nat :: v < |p| ==> (was[v] <==> OnSome(cs, v))
    requires forall v :: v in c ==> !was[v]
    ensures !was[x]
  {
    hide IsCycle;
    BackOnSome(p, cs, c[|c| - 1]);
  }
}
