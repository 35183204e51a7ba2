/** The search for restriction sets: record the single swaps, drop what conflicts, branch
    on the two-cycles of the first survivor that shows one. */
module RestrictSearch {
  import opened Counting
  import opened Patterns
  import opened Symmetry
  import opened Permutations
  import opened PatternGraph
  import opened Restricts
  import opened RestrictEmission

  /** isos is a list of automorphisms, groups their cycles. */
  ghost predicate Tracked(q: Query, isos: seq<seq<nat>>, groups: seq<seq<seq<nat>>>)
    requires q.Valid()
  {
    && |isos| == |groups|
    && (forall k :: 0 <= k < |isos| ==> isos[k] in Automorphisms(q) && AreCycles(isos[k], groups[k]))
  }

  lemma {:induction false} TrackedErase(q: Query, isos: seq<seq<nat>>, groups: seq<seq<seq<nat>>>, i: nat)
    requires q.Valid() && Tracked(q, isos, groups) && i < |isos|
    ensures Tracked(q, Erase(isos, i), Erase(groups, i))
  {
    hide AreCycles, Preserves;
    var a, b := Erase(isos, i), Erase(groups, i);
    forall k | 0 <= k < |a| ensures a[k] in Automorphisms(q) && AreCycles(a[k], b[k]) {
      var j := if k < i then k else k + 1;
      assert a[k] == isos[j] && b[k] == groups[j];
    }
  }

  // ----- two-cycles and swaps -----

  /** The two-cycles in a list of cycles. */
  function CyclePairs(cs: seq<seq<nat>>): seq<Pair> {
    if |cs| == 0 then
      []
    else
      var c := cs[|cs| - 1];
      CyclePairs(cs[..|cs| - 1]) + (if |c| == 2 then [(c[0], c[1])] else [])
  }

  lemma {:induction false} CyclePairAt(cs: seq<seq<nat>>, e: Pair)
    ensures e in CyclePairs(cs) <==> exists k :: 0 <= k < |cs| && cs[k] == [e.0, e.1]
  {
    var n := |cs| - 1;
    if |cs| > 0 {
      CyclePairAt(cs[..n], e);
      if e in CyclePairs(cs[..n]) {
        var k :| 0 <= k < n && cs[..n][k] == [e.0, e.1];
        assert cs[k] == [e.0, e.1];
      }
      if k :| 0 <= k < |cs| && cs[k] == [e.0, e.1] {
        assert k < n ==> cs[..n][k] == [e.0, e.1];
      }
    }
  }

  ghost predicate ByFirst(es: seq<Pair>) {
    forall x, y :: 0 <= x < y < |es| ==> es[x].0 < es[y].0
  }

  lemma {:induction false} CyclePairsSorted(cs: seq<seq<nat>>)
    requires forall k :: 0 <= k < |cs| ==> |cs[k]| > 0
    requires forall k, l :: 0 <= k < l < |cs| ==> cs[k][0] < cs[l][0]
    ensures ByFirst(CyclePairs(cs))
  {
    var n := |cs| - 1;
    if |cs| > 0 {
      CyclePairsSorted(cs[..n]);
      var es := CyclePairs(cs[..n]);
      forall x | 0 <= x < |es| ensures es[x].0 < cs[n][0] {
        CyclePairAt(cs[..n], es[x]);
        var k :| 0 <= k < n && cs[..n][k] == [es[x].0, es[x].1];
        assert cs[k][0] == es[x].0;
      }
    }
  }

  lemma {:induction false} SwapsSorted(p: seq<nat>, n: nat)
    requires n <= |p|
    ensures ByFirst(SwapsBelow(p, n)) && forall k :: 0 <= k < |SwapsBelow(p, n)| ==> SwapsBelow(p, n)[k].0 < n
  {
    if n > 0 {
      SwapsSorted(p, n - 1);
    }
  }

  lemma {:induction false} SameSorted(a: seq<Pair>, b: seq<Pair>)
    requires ByFirst(a) && ByFirst(b) && forall e :: e in a <==> e in b
    ensures a == b
  {
    hide ByFirst;
    BothEmpty(a, b);
    if |a| > 0 && |b| > 0 {
      var m, n := |a| - 1, |b| - 1;
      SameLast(a, b);
      forall e ensures e in a[..m] <==> e in b[..n] {
        ButLast(a, e);
        ButLast(b, e);
      }
      SortedPrefix(a, m);
      SortedPrefix(b, n);
      SameSorted(a[..m], b[..n]);
      assert a == a[..m] + [a[m]] && b == b[..n] + [b[n]];
    }
  }

  lemma {:induction false} SortedPrefix(a: seq<Pair>, k: nat)
    requires ByFirst(a) && k <= |a|
    ensures ByFirst(a[..k])
  {
  }

  lemma {:induction false} SameLast(a: seq<Pair>, b: seq<Pair>)
    requires ByFirst(a) && ByFirst(b) && |a| > 0 && |b| > 0 && forall e :: e in a <==> e in b
    ensures a[|a| - 1] == b[|b| - 1]
  {
    var m, n := |a| - 1, |b| - 1;
    assert a[m] in b && b[n] in a;
    var i :| 0 <= i <= n && b[i] == a[m];
    var j :| 0 <= j <= m && a[j] == b[n];
    assert b[i].0 <= b[n].0 && a[j].0 <= a[m].0;
  }

  lemma {:induction false} BothEmpty(a: seq<Pair>, b: seq<Pair>)
    requires forall e :: e in a <==> e in b
    ensures |a| == 0 <==> |b| == 0
  {
    if |a| > 0 {
      assert a[0] in b;
    }
    if |b| > 0 {
      assert b[0] in a;
    }
  }

  lemma {:induction false} ButLast(a: seq<Pair>, e: Pair)
    requires ByFirst(a) && |a| > 0
    ensures e in a[..|a| - 1] <==> e in a && e != a[|a| - 1]
  {
    assert a == a[..|a| - 1] + [a[|a| - 1]];
  }

  /** A swap shows up as a two-cycle. */
  lemma {:induction false} SwapIsCycle(p: seq<nat>, cs: seq<seq<nat>>, e: Pair)
    requires IsPerm(p, |p|) && AreCycles(p, cs) && Swaps(p, e)
    ensures exists k :: 0 <= k < |cs| && cs[k] == [e.0, e.1]
  {
    assert OnSome(cs, e.0);
    var k :| 0 <= k < |cs| && e.0 in cs[k];
    var c := cs[k];
    assert IsCycle(p, c);
    var t :| 0 <= t < |c| && c[t] == e.0;
    var u := if t == |c| - 1 then 0 else t + 1;
    assert c[u] == e.1;
    assert p[c[u]] == c[if u == |c| - 1 then 0 else u + 1];
    assert c == [e.0, e.1];
  }

  lemma {:induction false} CycleIsSwap(p: seq<nat>, c: seq<nat>)
    requires IsPerm(p, |p|) && IsCycle(p, c) && |c| == 2
    ensures Swaps(p, (c[0], c[1])) && c == [c[0], c[1]]
  {
    assert c[0] <= c[1] && c[0] != c[1];
    assert p[c[0]] == c[1];
  }

  /** The two-cycles of p, in the order of the cycles, are its swaps in order. */
  lemma {:induction false} CyclesAreSwaps(p: seq<nat>, cs: seq<seq<nat>>)
    requires IsPerm(p, |p|) && AreCycles(p, cs)
    ensures CyclePairs(cs) == SwapsBelow(p, |p|)
  {
    assert forall k :: 0 <= k < |cs| ==> IsCycle(p, cs[k]);
    hide CyclePairs, SwapsBelow, Swaps, ByFirst;
    CyclePairsSorted(cs);
    SwapsSorted(p, |p|);
    forall e ensures e in CyclePairs(cs) <==> e in SwapsBelow(p, |p|) {
      CyclePairAt(cs, e);
      SwapListed(p, |p|, e);
      if Swaps(p, e) {
        SwapInside(p, e);
        SwapIsCycle(p, cs, e);
      }
      if k :| 0 <= k < |cs| && cs[k] == [e.0, e.1] {
        CycleIsSwap(p, cs[k]);
      }
    }
    SameSorted(CyclePairs(cs), SwapsBelow(p, |p|));
  }

  /** Cycle `at` has two elements and the other cycles below k one. */
  ghost predicate OnlyAt(cs: seq<seq<nat>>, k: nat, at: nat) {
    at < k <= |cs| && |cs[at]| == 2 && forall j :: 0 <= j < k && j != at ==> |cs[j]| == 1
  }

  lemma {:induction false} OnlyAtSwaps(p: seq<nat>, cs: seq<seq<nat>>, at: nat)
    requires IsPerm(p, |p|) && AreCycles(p, cs) && OnlyAt(cs, |cs|, at)
    ensures OnlySwaps(p, (cs[at][0], cs[at][1]))
  {
    CycleIsSwap(p, cs[at]);
    forall v: nat | v < |p| && v != cs[at][0] && v != cs[at][1] ensures p[v] == v {
      assert OnSome(cs, v);
      var k :| 0 <= k < |cs| && v in cs[k];
      assert k != at;
      assert IsCycle(p, cs[k]);
    }
  }

  lemma {:induction false} MovesNoOther(p: seq<nat>, c: seq<nat>, e: Pair)
    requires IsPerm(p, |p|) && IsCycle(p, c) && OnlySwaps(p, e)
    ensures |c| == 1 || e.0 in c
  {
    if |c| > 1 {
      assert p[c[0]] == c[1] != c[0];
    }
  }

  lemma {:induction false} SwapsOnlyAt(p: seq<nat>, cs: seq<seq<nat>>, e: Pair)
    requires IsPerm(p, |p|) && AreCycles(p, cs) && OnlySwaps(p, e)
    ensures exists at :: OnlyAt(cs, |cs|, at)
  {
    SwapIsCycle(p, cs, e);
    var at :| 0 <= at < |cs| && cs[at] == [e.0, e.1];
    forall j | 0 <= j < |cs| && j != at ensures |cs[j]| == 1 {
      assert e.0 in cs[at];
      MovesNoOther(p, cs[j], e);
    }
    assert OnlyAt(cs, |cs|, at);
  }

  /** Exactly one two-cycle and otherwise fixed points: that two-cycle. */
  method LoneSwap(groups: seq<seq<nat>>) returns (number: int, at: nat)
    ensures number == 1 <==> exists a :: OnlyAt(groups, |groups|, a)
    ensures number == 1 ==> OnlyAt(groups, |groups|, at)
  {
    number, at := 0, 0;
    ghost var first := 0;
    for k := 0 to |groups|
      invariant number >= 0
      invariant number == 0 ==> forall j :: 0 <= j < k ==> |groups[j]| == 1
      invariant number == 1 ==> OnlyAt(groups, k, at)
      invariant number > 1 ==> 0 <= first < at < k && |groups[first]| == 2 && |groups[at]| == 2
    {
      if |groups[k]| == 2 {
        first := at;
        number, at := number + 1, k;
      } else if |groups[k]| != 1 {
        return -1, at;
      }
    }
  }

  // ----- the search -----

  method CyclesOfAll(q: Query, isos: seq<seq<nat>>) returns (groups: seq<seq<seq<nat>>>)
    requires q.Valid() && Elements(isos) == Automorphisms(q)
    ensures Tracked(q, isos, groups)
  {
    hide AreCycles, Preserves;
    groups := [];
    for k := 0 to |isos|
      invariant |groups| == k
      invariant forall j :: 0 <= j < k ==> isos[j] in Automorphisms(q) && AreCycles(isos[j], groups[j])
    {
      assert isos[k] in Elements(isos);
      var cycles := CalcPermutationGroup(isos[k]);
      groups := groups + [cycles];
    }
  }

  lemma {:induction false} LoneSwapIs(q: Query, isos: seq<seq<nat>>, groups: seq<seq<seq<nat>>>, i: nat, at: nat)
    requires q.Valid() && Tracked(q, isos, groups) && i < |isos|
    ensures OneSwap(isos[i]) <==> exists a :: OnlyAt(groups[i], |groups[i]|, a)
    ensures OnlyAt(groups[i], |groups[i]|, at) ==> OneSwap(isos[i]) && TheSwap(isos[i]) == (groups[i][at][0], groups[i][at][1])
  {
    hide AreCycles, Preserves, OnlySwaps;
    var p, cs := isos[i], groups[i];
    assert p in Automorphisms(q);
    if OneSwap(p) {
      SwapsOnlyAt(p, cs, TheSwap(p));
    }
    if a :| OnlyAt(cs, |cs|, a) {
      OnlyAtSwaps(p, cs, a);
    }
    if OnlyAt(cs, |cs|, at) {
      OnlyAtSwaps(p, cs, at);
      OneOnly(p, (cs[at][0], cs[at][1]), TheSwap(p));
    }
  }

  /** First pass: an automorphism that is one swap forces its own restriction. */
  method RecordSwaps(q: Query, isos0: seq<seq<nat>>, groups0: seq<seq<seq<nat>>>)
    returns (isos: seq<seq<nat>>, groups: seq<seq<seq<nat>>>, pairs: seq<Pair>)
    requires q.Valid() && Tracked(q, isos0, groups0)
    ensures Tracked(q, isos, groups)
    ensures isos == NotSingle(isos0) && pairs == SinglePairs(isos0)
  {
    hide OneSwap, TheSwap, Tracked, OnlyAt;
    TrackedSize(q, isos0, groups0);
    isos, groups, pairs := isos0, groups0, [];
    var i := 0;
    ghost var done := 0;
    while i < |groups|
      invariant 0 <= i <= |isos| == |groups| && 0 <= done <= |isos0|
      invariant Tracked(q, isos, groups)
      invariant isos[..i] == NotSingle(isos0[..done]) && isos[i..] == isos0[done..]
      invariant pairs == SinglePairs(isos0[..done])
      decreases |groups| - i
    {
      var number, at := LoneSwap(groups[i]);
      LoneSwapIs(q, isos, groups, i, at);
      assert isos[i] == isos[i..][0] == isos0[done] && isos0[..done + 1][..done] == isos0[..done];
      done := done + 1;
      if number == 1 {
        var c := groups[i][at];
        TrackedErase(q, isos, groups, i);
        isos, groups := Erase(isos, i), Erase(groups, i);
        pairs := pairs + [(c[0], c[1])];
      } else {
        i := i + 1;
      }
    }
    assert isos[..i] == isos && isos0[..done] == isos0;
  }

  lemma {:induction false} TrackedSize(q: Query, isos: seq<seq<nat>>, groups: seq<seq<seq<nat>>>)
    requires q.Valid() && Tracked(q, isos, groups)
    ensures |isos| == |groups|
  {
  }

  lemma {:induction false} TrackedAt(q: Query, isos: seq<seq<nat>>, groups: seq<seq<seq<nat>>>, i: nat)
    requires q.Valid() && Tracked(q, isos, groups) && i < |isos|
    ensures i < |groups| && |isos[i]| == q.n && IsPerm(isos[i], q.n) && AreCycles(isos[i], groups[i])
  {
    hide AreCycles;
    assert isos[i] in Automorphisms(q);
  }

  /** The first `done` automorphisms of isos0 have left i survivors. */
  ghost predicate SurvivedTo(isos0: seq<seq<nat>>, isos: seq<seq<nat>>, pairs: seq<Pair>, done: nat, i: nat) {
    && done <= |isos0| && i <= |isos|
    && isos[..i] == Survivors(isos0[..done], pairs)
    && isos[i..] == isos0[done..]
  }

  lemma {:induction false} SurvivedEnds(isos0: seq<seq<nat>>, isos: seq<seq<nat>>, pairs: seq<Pair>, done: nat, i: nat)
    ensures SurvivedTo(isos0, isos0, pairs, 0, 0)
    ensures SurvivedTo(isos0, isos, pairs, done, i) && i == |isos| ==> isos == Survivors(isos0, pairs)
  {
    if SurvivedTo(isos0, isos, pairs, done, i) && i == |isos| {
      assert isos[..i] == isos && isos[i..] == [];
      assert isos0[..done] == isos0;
    }
  }

  lemma {:induction false} SurvivedStep(isos0: seq<seq<nat>>, isos: seq<seq<nat>>, pairs: seq<Pair>, done: nat, i: nat)
    requires SurvivedTo(isos0, isos, pairs, done, i) && i < |isos|
    ensures Dropped(pairs, isos[i]) ==> SurvivedTo(isos0, Erase(isos, i), pairs, done + 1, i)
    ensures !Dropped(pairs, isos[i]) ==> SurvivedTo(isos0, isos, pairs, done + 1, i + 1)
  {
    hide Dropped;
    assert isos[i] == isos[i..][0] == isos0[done];
    assert isos0[..done + 1][..done] == isos0[..done];
    assert isos0[done + 1..] == isos[i..][1..] == isos[i + 1..] == Erase(isos, i)[i..];
    assert Erase(isos, i)[..i] == isos[..i];
    assert isos[..i + 1] == isos[..i] + [isos[i]];
  }

  /** The elimination loop at the head of the search. */
  method DropConflicts(q: Query, base: Pattern, isos0: seq<seq<nat>>, groups0: seq<seq<seq<nat>>>, pairs: seq<Pair>)
    returns (isos: seq<seq<nat>>, groups: seq<seq<seq<nat>>>)
    requires q.Valid() && base.Valid() && base.size == q.n && Drawn(base.adjMat, pairs)
    requires Tracked(q, isos0, groups0)
    ensures Tracked(q, isos, groups) && isos == Survivors(isos0, pairs)
  {
    hide Tracked, AreCycles, SurvivedTo;
    TrackedSize(q, isos0, groups0);
    isos, groups := isos0, groups0;
    var i := 0;
    ghost var done := 0;
    SurvivedEnds(isos0, isos0, pairs, 0, 0);
    while i < |isos|
      invariant 0 <= i <= |isos| == |groups|
      invariant Tracked(q, isos, groups)
      invariant SurvivedTo(isos0, isos, pairs, done, i)
      decreases |isos| - i
    {
      TrackedAt(q, isos, groups, i);
      var bad := Conflicts(base, pairs, isos[i]);
      SurvivedStep(isos0, isos, pairs, done, i);
      done := done + 1;
      if bad {
        TrackedErase(q, isos, groups, i);
        isos, groups := Erase(isos, i), Erase(groups, i);
      } else {
        i := i + 1;
      }
    }
    SurvivedEnds(isos0, isos, pairs, done, i);
  }

  lemma {:induction false} NoSwapNone(p: seq<nat>)
    ensures |SwapsBelow(p, |p|)| == 0 <==> !HasSwap(p)
  {
    hide Swaps, SwapsBelow;
    var es := SwapsBelow(p, |p|);
    if |es| > 0 {
      SwapListed(p, |p|, es[0]);
    }
    if e :| Swaps(p, e) {
      SwapInside(p, e);
      SwapListed(p, |p|, e);
    }
  }

  lemma {:induction false} CyclePairsGrow(cs: seq<seq<nat>>, v: nat)
    requires v <= |cs|
    ensures CyclePairs(cs[..v]) <= CyclePairs(cs)
    decreases |cs|
  {
    if v < |cs| {
      CyclePairsGrow(cs[..|cs| - 1], v);
      assert cs[..|cs| - 1][..v] == cs[..v];
    } else {
      assert cs[..v] == cs;
    }
  }

  /** The search below the restrictions `pairs` appends what is emitted there, in order. */
  method AggressiveOptimizeDfs(q: Query, base: Pattern, isos0: seq<seq<nat>>, groups0: seq<seq<seq<nat>>>,
                               pairs: seq<Pair>, out0: seq<seq<Pair>>)
    returns (out: seq<seq<Pair>>)
    requires q.Valid() && base.Valid() && base.size == q.n && Drawn(base.adjMat, pairs)
    requires Tracked(q, isos0, groups0)
    ensures out == out0 + Emission(isos0, pairs)
    decreases |isos0|, 2
  {
    hide Tracked, Survivors, Drawn, HasSwap;
    out := out0;
    var isos, groups := DropConflicts(q, base, isos0, groups0, pairs);
    TrackedSize(q, isos, groups);
    if |isos| == 1 {
      return out + [pairs];
    }
    var i := 0;
    while i < |groups|
      invariant 0 <= i <= |groups| && out == out0
      invariant forall k :: 0 <= k < i ==> !HasSwap(isos[k])
    {
      var found;
      found, out := TryCycles(q, base, isos, groups, pairs, i, out);
      if found {
        FirstOf(isos, i);
        return;
      }
      i := i + 1;
    }
  }

  lemma {:induction false} FirstOf(isos: seq<seq<nat>>, i: nat)
    requires i < |isos| && HasSwap(isos[i]) && forall k :: 0 <= k < i ==> !HasSwap(isos[k])
    ensures FirstAt(isos) == i
  {
    hide HasSwap;
  }

  /** One branch for each two-cycle of automorphism i. */
  method TryCycles(q: Query, base: Pattern, isos: seq<seq<nat>>, groups: seq<seq<seq<nat>>>,
                   pairs: seq<Pair>, i: nat, out0: seq<seq<Pair>>)
    returns (found: bool, out: seq<seq<Pair>>)
    requires q.Valid() && base.Valid() && base.size == q.n && Drawn(base.adjMat, pairs)
    requires Tracked(q, isos, groups) && i < |isos|
    ensures found <==> HasSwap(isos[i])
    ensures !found ==> out == out0
    ensures var es := SwapsBelow(isos[i], |isos[i]|); out == out0 + Branches(Erase(isos, i), pairs, es, |es|)
    decreases |isos|, 1
  {
    hide Tracked, Drawn, HasSwap, AreCycles, Emission, IsPerm;
    found, out := false, out0;
    TrackedAt(q, isos, groups, i);
    ghost var es := CyclePairs(groups[i]);
    CyclesAreSwaps(isos[i], groups[i]);
    NoSwapNone(isos[i]);
    for v := 0 to |groups[i]|
      invariant |CyclePairs(groups[i][..v])| <= |es|
      invariant out == out0 + Branches(Erase(isos, i), pairs, es, |CyclePairs(groups[i][..v])|)
      invariant found <==> |CyclePairs(groups[i][..v])| > 0
    {
      var c := groups[i][v];
      assert groups[i][..v + 1][..v] == groups[i][..v];
      CyclePairsGrow(groups[i], v + 1);
      if |c| == 2 {
        found := true;
        out := Descend(q, base, isos, groups, pairs, i, v, out);
      }
    }
    assert groups[i][..|groups[i]|] == groups[i];
  }

  /** Drops automorphism i with the restriction of its two-cycle v, and searches on. */
  method Descend(q: Query, base: Pattern, isos: seq<seq<nat>>, groups: seq<seq<seq<nat>>>,
                 pairs: seq<Pair>, i: nat, v: nat, out0: seq<seq<Pair>>)
    returns (out: seq<seq<Pair>>)
    requires q.Valid() && base.Valid() && base.size == q.n && Drawn(base.adjMat, pairs)
    requires Tracked(q, isos, groups) && i < |isos| && i < |groups| && v < |groups[i]| && |groups[i][v]| == 2
    ensures out == out0 + Emission(Erase(isos, i), pairs + [(groups[i][v][0], groups[i][v][1])])
    decreases |isos|, 0
  {
    hide Tracked, Drawn, AreCycles, Emission;
    var c := groups[i][v];
    TrackedAt(q, isos, groups, i);
    CycleInside(isos[i], groups[i], v);
    TrackedErase(q, isos, groups, i);
    DrawOne(base.adjMat, pairs, (c[0], c[1]));
    var next := new Pattern.Copy(base);
    next.AddOrderedEdge(c[0], c[1]);
    out := AggressiveOptimizeDfs(q, next, Erase(isos, i), Erase(groups, i), pairs + [(c[0], c[1])], out0);
  }

  lemma {:induction false} CycleInside(p: seq<nat>, cs: seq<seq<nat>>, v: nat)
    requires IsPerm(p, |p|) && AreCycles(p, cs) && v < |cs| && |cs[v]| == 2
    ensures cs[v][0] < |p| && cs[v][1] < |p|
  {
    CycleIsSwap(p, cs[v]);
  }

  method DrawBase(n: nat, pairs: seq<Pair>) returns (base: Pattern)
    requires InRange(pairs, n)
    ensures base.Valid() && base.size == n && Drawn(base.adjMat, pairs)
  {
    base := new Pattern(n);
    for k := 0 to |pairs|
      invariant base.Valid() && base.size == n && Drawn(base.adjMat, pairs[..k])
    {
      DrawOne(base.adjMat, pairs[..k], pairs[k]);
      assert pairs[..k + 1] == pairs[..k] + [pairs[k]];
      base.AddOrderedEdge(pairs[k].0, pairs[k].1);
    }
    assert pairs[..|pairs|] == pairs;
  }

  /** All emitted sets, and each keeps at most one automorphic image. */
  method AggressiveOptimizeGetAllPairs(q: Query) returns (out: seq<seq<Pair>>)
    requires q.Valid()
    ensures out == EmissionOf(q)
    ensures forall r :: r in out <==> Emitted(q, r)
    ensures forall r :: r in out ==> InOrder(r, q.n) && AtMostOneImage(q, r)
    ensures SwapsEverywhere(q) ==> |out| > 0
  {
    hide Tracked, Emits, Emission, AtMostOneImage, InOrder, AutList, SwapsEverywhere, NotSingle, SinglePairs, Removed;
    var isos := GetIsomorphismVec(q);
    var groups := CyclesOfAll(q, isos);
    var pairs;
    isos, groups, pairs := RecordSwaps(q, isos, groups);
    PassStart(q);
    RemovedInRange(q, isos, pairs);
    var base := DrawBase(q.n, pairs);
    out := AggressiveOptimizeDfs(q, base, isos, groups, pairs, []);
    forall r ensures r in out <==> Emitted(q, r) {
      EmissionIs(isos, pairs, r);
    }
    forall r | r in out ensures InOrder(r, q.n) && AtMostOneImage(q, r) {
      EmittedKeepsOne(q, r);
    }
    if SwapsEverywhere(q) {
      SomethingEmitted(q);
    }
  }

  lemma {:induction false} RemovedInRange(q: Query, isos: seq<seq<nat>>, pairs: seq<Pair>)
    requires q.Valid() && Removed(q, isos, pairs)
    ensures InRange(pairs, q.n)
  {
  }
}
