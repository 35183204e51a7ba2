/** What the search for restriction sets emits, said without the search: the pairs of the
    single swaps, then, after each removal of conflicting automorphisms, one two-cycle of
    the first survivor that has any. */
module RestrictEmission {
  import opened Counting
  import opened Patterns
  import opened Symmetry
  import opened Permutations
  import opened Restricts

  // ----- what the search emits -----

  /** p exchanges the two vertices of e. */
  predicate Swaps(p: seq<nat>, e: Pair) {
    e.0 < e.1 < |p| && p[e.0] == e.1 && p[e.1] == e.0
  }

  ghost predicate HasSwap(p: seq<nat>) {
    exists e :: Swaps(p, e)
  }

  /** p exchanges the two vertices of e and moves nothing else. */
  ghost predicate OnlySwaps(p: seq<nat>, e: Pair) {
    Swaps(p, e) && forall v: nat :: v < |p| && v != e.0 && v != e.1 ==> p[v] == v
  }

  ghost predicate OneSwap(p: seq<nat>) {
    exists e :: OnlySwaps(p, e)
  }

  ghost function TheSwap(p: seq<nat>): (e: Pair)
    requires OneSwap(p)
    ensures OnlySwaps(p, e)
  {
    var e :| OnlySwaps(p, e);
    e
  }

  lemma {:induction false} OneOnly(p: seq<nat>, e: Pair, d: Pair)
    requires OnlySwaps(p, e) && OnlySwaps(p, d)
    ensures e == d
  {
    assert p[e.0] != e.0 && p[e.1] != e.1;
  }

  /** The pairs of the automorphisms that are a single swap. */
  ghost function SinglePairs(isos: seq<seq<nat>>): seq<Pair> {
    if |isos| == 0 then []
    else SinglePairs(isos[..|isos| - 1]) + if OneSwap(isos[|isos| - 1]) then [TheSwap(isos[|isos| - 1])] else []
  }

  /** The other automorphisms. */
  ghost function NotSingle(isos: seq<seq<nat>>): (r: seq<seq<nat>>) {
    if |isos| == 0 then []
    else NotSingle(isos[..|isos| - 1]) + if OneSwap(isos[|isos| - 1]) then [] else [isos[|isos| - 1]]
  }

  ghost predicate Dropped(pairs: seq<Pair>, p: seq<nat>) {
    InRange(pairs, |p|) && RuledOut(pairs, p)
  }

  /** What is left once the conflicting automorphisms are removed. */
  ghost function Survivors(isos: seq<seq<nat>>, pairs: seq<Pair>): (r: seq<seq<nat>>)
    ensures |r| <= |isos|
  {
    if |isos| == 0 then []
    else Survivors(isos[..|isos| - 1], pairs) + if Dropped(pairs, isos[|isos| - 1]) then [] else [isos[|isos| - 1]]
  }

  ghost predicate FirstSwapped(isos: seq<seq<nat>>, i: nat) {
    i < |isos| && HasSwap(isos[i]) && forall k :: 0 <= k < i ==> !HasSwap(isos[k])
  }

  /** r is emitted below `pairs` with isos still to be dealt with: r is `pairs` when one
      automorphism survives, and otherwise takes up some two-cycle of the first survivor
      that has any. */
  ghost predicate Emits(isos: seq<seq<nat>>, pairs: seq<Pair>, r: seq<Pair>)
    decreases |isos|
  {
    var s := Survivors(isos, pairs);
    if |s| == 1 then
      r == pairs
    else
      exists i: nat, e: Pair :: FirstSwapped(s, i) && Swaps(s[i], e) && Emits(Erase(s, i), pairs + [e], r)
  }

  /** The search over all automorphisms of the pattern, in lexicographic order. */
  ghost predicate Emitted(q: Query, r: seq<Pair>)
    requires q.Valid()
  {
    Emits(NotSingle(AutList(q)), SinglePairs(AutList(q)), r)
  }

  // ----- the same as a list, in the order of the search -----

  /** The swaps of p whose smaller vertex is below n, in order. */
  function SwapsBelow(p: seq<nat>, n: nat): (r: seq<Pair>)
    requires n <= |p|
  {
    if n == 0 then
      []
    else
      SwapsBelow(p, n - 1) + (if n - 1 < p[n - 1] < |p| && p[p[n - 1]] == n - 1 then [(n - 1, p[n - 1])] else [])
  }

  /** The position of the first entry that has a swap, or the length. */
  ghost function FirstAt(isos: seq<seq<nat>>): (i: nat)
    ensures i <= |isos| && forall k :: 0 <= k < i ==> !HasSwap(isos[k])
    ensures i < |isos| ==> FirstSwapped(isos, i)
  {
    if |isos| == 0 || HasSwap(isos[0]) then 0
    else
      var i := FirstAt(isos[1..]);
      assert forall k :: 1 <= k < |isos| ==> isos[k] == isos[1..][k - 1];
      i + 1
  }

  ghost function Emission(isos: seq<seq<nat>>, pairs: seq<Pair>): seq<seq<Pair>>
    decreases |isos|, 0, 0
  {
    var s := Survivors(isos, pairs);
    if |s| == 1 then
      [pairs]
    else
      var i := FirstAt(s);
      if i == |s| then [] else Branches(Erase(s, i), pairs, SwapsBelow(s[i], |s[i]|), |SwapsBelow(s[i], |s[i]|)|)
  }

  /** One branch for each of the first k swaps. */
  ghost function Branches(isos: seq<seq<nat>>, pairs: seq<Pair>, es: seq<Pair>, k: nat): seq<seq<Pair>>
    requires k <= |es|
    decreases |isos|, 1, k
  {
    if k == 0 then [] else Branches(isos, pairs, es, k - 1) + Emission(isos, pairs + [es[k - 1]])
  }

  ghost function EmissionOf(q: Query): seq<seq<Pair>>
    requires q.Valid()
  {
    Emission(NotSingle(AutList(q)), SinglePairs(AutList(q)))
  }

  lemma {:induction false} SwapListed(p: seq<nat>, n: nat, e: Pair)
    requires n <= |p|
    ensures e in SwapsBelow(p, n) <==> Swaps(p, e) && e.0 < n
  {
    if n > 0 {
      SwapListed(p, n - 1, e);
    }
  }

  lemma {:induction false} FirstIsOne(isos: seq<seq<nat>>, i: nat, j: nat)
    requires FirstSwapped(isos, i) && FirstSwapped(isos, j)
    ensures i == j < |isos|
  {
  }

  /** The list holds exactly what is emitted. */
  lemma {:induction false} EmissionIs(isos: seq<seq<nat>>, pairs: seq<Pair>, r: seq<Pair>)
    ensures r in Emission(isos, pairs) <==> Emits(isos, pairs, r)
    decreases |isos|, 0, 0
  {
    var s := Survivors(isos, pairs);
    if |s| != 1 {
      var i := FirstAt(s);
      if i < |s| {
        BranchesAre(Erase(s, i), pairs, SwapsBelow(s[i], |s[i]|), |SwapsBelow(s[i], |s[i]|)|, r);
        BranchTaken(isos, pairs, i, r);
      }
    }
  }

  lemma {:induction false} BranchTaken(isos: seq<seq<nat>>, pairs: seq<Pair>, i: nat, r: seq<Pair>)
    requires |Survivors(isos, pairs)| != 1 && FirstSwapped(Survivors(isos, pairs), i)
    ensures i < |Survivors(isos, pairs)|
    ensures Emits(isos, pairs, r) <==>
      var s := Survivors(isos, pairs);
      exists e :: e in SwapsBelow(s[i], |s[i]|) && Emits(Erase(s, i), pairs + [e], r)
  {
    hide Swaps, SwapsBelow, Survivors;
    var s := Survivors(isos, pairs);
    FirstIsOne(s, i, i);
    hide FirstSwapped;
    if Emits(isos, pairs, r) {
      var j: nat, e: Pair :| FirstSwapped(s, j) && Swaps(s[j], e) && Emits(Erase(s, j), pairs + [e], r);
      FirstIsOne(s, i, j);
      SwapInside(s[i], e);
      SwapListed(s[i], |s[i]|, e);
    }
    if e :| e in SwapsBelow(s[i], |s[i]|) && Emits(Erase(s, i), pairs + [e], r) {
      SwapListed(s[i], |s[i]|, e);
    }
  }

  lemma {:induction false} SwapInside(p: seq<nat>, e: Pair)
    requires Swaps(p, e)
    ensures e.0 < |p|
  {
  }

  lemma {:induction false} BranchesAre(isos: seq<seq<nat>>, pairs: seq<Pair>, es: seq<Pair>, k: nat, r: seq<Pair>)
    requires k <= |es|
    ensures r in Branches(isos, pairs, es, k) <==> exists e :: e in es[..k] && Emits(isos, pairs + [e], r)
    decreases |isos|, 1, k
  {
    hide Emits, Emission;
    if k > 0 {
      BranchesAre(isos, pairs, es, k - 1, r);
      EmissionIs(isos, pairs + [es[k - 1]], r);
      assert es[..k] == es[..k - 1] + [es[k - 1]];
    }
  }

  // ----- every emitted set keeps at most one image -----

  /** Every automorphism missing from isos has been ruled out. */
  ghost predicate Removed(q: Query, isos: seq<seq<nat>>, pairs: seq<Pair>)
    requires q.Valid()
  {
    && InOrder(pairs, q.n) && InRange(pairs, q.n)
    && forall p :: p in Automorphisms(q) && p !in isos ==> RuledOut(pairs, p)
  }

  ghost predicate AllAutomorphisms(q: Query, isos: seq<seq<nat>>)
    requires q.Valid()
  {
    forall k :: 0 <= k < |isos| ==> isos[k] in Automorphisms(q)
  }

  lemma {:induction false} SurvivorsAre(isos: seq<seq<nat>>, pairs: seq<Pair>, p: seq<nat>)
    ensures p in Survivors(isos, pairs) <==> p in isos && !Dropped(pairs, p)
  {
    hide Dropped;
    if |isos| > 0 {
      SurvivorsAre(isos[..|isos| - 1], pairs, p);
      assert isos == isos[..|isos| - 1] + [isos[|isos| - 1]];
    }
  }

  lemma {:induction false} SurvivorsDistinct(isos: seq<seq<nat>>, pairs: seq<Pair>)
    requires Distinct(isos)
    ensures Distinct(Survivors(isos, pairs))
  {
    hide Dropped;
    if |isos| > 0 {
      SurvivorsDistinct(isos[..|isos| - 1], pairs);
      SurvivorsAre(isos[..|isos| - 1], pairs, isos[|isos| - 1]);
    }
  }

  lemma {:induction false} SurvivorsRemoved(q: Query, isos: seq<seq<nat>>, pairs: seq<Pair>)
    requires q.Valid() && Removed(q, isos, pairs) && AllAutomorphisms(q, isos)
    ensures var s := Survivors(isos, pairs);
      Removed(q, s, pairs) && AllAutomorphisms(q, s) && forall k :: 0 <= k < |s| ==> !RuledOut(pairs, s[k])
  {
    hide RuledOut, Preserves, Survivors;
    var s := Survivors(isos, pairs);
    forall p | p in Automorphisms(q) && p !in s ensures RuledOut(pairs, p) {
      SurvivorsAre(isos, pairs, p);
    }
    forall k | 0 <= k < |s| ensures s[k] in Automorphisms(q) && !RuledOut(pairs, s[k]) {
      SurvivorsAre(isos, pairs, s[k]);
    }
  }

  lemma {:induction false} DistinctErase<T>(s: seq<T>, i: nat)
    requires i < |s| && Distinct(s)
    ensures Distinct(Erase(s, i))
  {
    var r := Erase(s, i);
    forall a, b | 0 <= a < b < |r| ensures r[a] != r[b] {
      assert r[a] == s[if a < i then a else a + 1] && r[b] == s[if b < i then b else b + 1];
    }
  }

  /** Adding the pair of a swap of isos[i] lets isos[i] go. */
  lemma {:induction false} RemoveBySwap(q: Query, isos: seq<seq<nat>>, pairs: seq<Pair>, i: nat, e: Pair)
    requires q.Valid() && i < |isos| && AllAutomorphisms(q, isos) && Swaps(isos[i], e)
    requires Removed(q, isos, pairs)
    ensures Removed(q, Erase(isos, i), pairs + [e]) && AllAutomorphisms(q, Erase(isos, i))
  {
    hide RuledOut, Preserves;
    forall p | p in Automorphisms(q) && p !in Erase(isos, i) ensures RuledOut(pairs + [e], p) {
      if p == isos[i] {
        SwapRulesOut(pairs + [e], p, |pairs|);
      } else {
        RuledOutStays(pairs, e, p);
      }
    }
  }

  /** Had the identity been ruled out, so would every other permutation. */
  lemma {:induction false} IdentityAllowed(pairs: seq<Pair>, p: seq<nat>)
    requires InRange(pairs, |p|) && !RuledOut(pairs, p)
    ensures !RuledOut(pairs, Identity(|p|))
  {
    var id := Identity(|p|);
    var f :| |f| == |p| && Ordered(pairs + Moved(pairs, p), f);
    var both := pairs + Moved(pairs, id);
    forall k | 0 <= k < |both| ensures both[k].0 < |f| && both[k].1 < |f| && f[both[k].0] > f[both[k].1] {
      var j := if k < |pairs| then k else k - |pairs|;
      assert both[k] == pairs[j] == (pairs + Moved(pairs, p))[j];
    }
    assert Ordered(both, f);
  }

  /** The last survivor is the identity. */
  lemma {:induction false} LoneSurvivor(q: Query, p: seq<nat>, pairs: seq<Pair>)
    requires q.Valid() && Removed(q, [p], pairs)
    requires p in Automorphisms(q) && !RuledOut(pairs, p)
    ensures p == Identity(q.n) && AllOthersRuledOut(q, pairs)
  {
    hide RuledOut, Preserves;
    IdentityIsAutomorphism(q);
    IdentityAllowed(pairs, p);
    assert p == Identity(q.n);
  }

  lemma {:induction false} EmitsGood(q: Query, isos: seq<seq<nat>>, pairs: seq<Pair>, r: seq<Pair>)
    requires q.Valid() && Removed(q, isos, pairs) && AllAutomorphisms(q, isos) && Emits(isos, pairs, r)
    ensures InOrder(r, q.n) && AllOthersRuledOut(q, r)
    decreases |isos|
  {
    hide RuledOut, Preserves, Survivors, Swaps, AllOthersRuledOut;
    var s := Survivors(isos, pairs);
    SurvivorsRemoved(q, isos, pairs);
    if |s| == 1 {
      assert s == [s[0]];
      LoneSurvivor(q, s[0], pairs);
    } else {
      var i: nat, e: Pair :| FirstSwapped(s, i) && Swaps(s[i], e) && Emits(Erase(s, i), pairs + [e], r);
      FirstIsOne(s, i, i);
      RemoveBySwap(q, s, pairs, i, e);
      EmitsGood(q, Erase(s, i), pairs + [e], r);
    }
  }

  // ----- the search comes back with something -----

  /** Every automorphism but the identity swaps some two vertices. */
  ghost predicate SwapsEverywhere(q: Query)
    requires q.Valid()
  {
    forall p :: p in Automorphisms(q) && p != Identity(q.n) ==> HasSwap(p)
  }

  /** Restrictions in order are satisfiable, so the identity is never ruled out. */
  lemma {:induction false} IdentityStays(q: Query, isos: seq<seq<nat>>, pairs: seq<Pair>)
    requires q.Valid() && Removed(q, isos, pairs)
    ensures Identity(q.n) in isos
  {
    var id := Identity(q.n);
    IdentityIsAutomorphism(q);
    var f := seq(q.n, i requires 0 <= i < q.n => (q.n - i) as nat);
    var both := pairs + Moved(pairs, id);
    forall k | 0 <= k < |both| ensures both[k].0 < |f| && both[k].1 < |f| && f[both[k].0] > f[both[k].1] {
      assert both[k] == pairs[if k < |pairs| then k else k - |pairs|];
    }
    assert Ordered(both, f);
    assert !RuledOut(pairs, id);
  }

  lemma {:induction false} FirstExists(q: Query, isos: seq<seq<nat>>)
    requires q.Valid() && SwapsEverywhere(q) && AllAutomorphisms(q, isos) && Distinct(isos) && |isos| > 1
    ensures FirstAt(isos) < |isos|
  {
    hide Swaps, Preserves;
    var i := if isos[0] == Identity(q.n) then 1 else 0;
    assert isos[i] in Automorphisms(q) && isos[i] != Identity(q.n);
    assert HasSwap(isos[i]);
  }

  lemma {:induction false} EmitsSome(q: Query, isos: seq<seq<nat>>, pairs: seq<Pair>)
    requires q.Valid() && Removed(q, isos, pairs) && AllAutomorphisms(q, isos) && Distinct(isos) && SwapsEverywhere(q)
    ensures exists r :: Emits(isos, pairs, r)
    decreases |isos|
  {
    hide RuledOut, Preserves, Survivors, Swaps, SwapsEverywhere;
    var s := Survivors(isos, pairs);
    SurvivorsRemoved(q, isos, pairs);
    SurvivorsDistinct(isos, pairs);
    IdentityStays(q, s, pairs);
    if |s| == 1 {
      assert Emits(isos, pairs, pairs);
    } else {
      FirstExists(q, s);
      var i := FirstAt(s);
      var e :| Swaps(s[i], e);
      RemoveBySwap(q, s, pairs, i, e);
      DistinctErase(s, i);
      EmitsSome(q, Erase(s, i), pairs + [e]);
      var r :| Emits(Erase(s, i), pairs + [e], r);
      assert Emits(isos, pairs, r);
    }
  }

  // ----- the first pass -----

  lemma {:induction false} SinglePairsAre(isos: seq<seq<nat>>, e: Pair)
    ensures e in SinglePairs(isos) <==> exists p :: p in isos && OneSwap(p) && TheSwap(p) == e
  {
    hide OneSwap, TheSwap;
    var n := |isos| - 1;
    if |isos| > 0 {
      SinglePairsAre(isos[..n], e);
      assert isos == isos[..n] + [isos[n]];
    }
  }

  lemma {:induction false} NotSingleAre(isos: seq<seq<nat>>, p: seq<nat>)
    ensures p in NotSingle(isos) <==> p in isos && !OneSwap(p)
  {
    hide OneSwap;
    var n := |isos| - 1;
    if |isos| > 0 {
      NotSingleAre(isos[..n], p);
      assert isos == isos[..n] + [isos[n]];
    }
  }

  lemma {:induction false} NotSingleDistinct(isos: seq<seq<nat>>)
    requires Distinct(isos)
    ensures Distinct(NotSingle(isos))
  {
    hide OneSwap;
    if |isos| > 0 {
      NotSingleDistinct(isos[..|isos| - 1]);
      NotSingleAre(isos[..|isos| - 1], isos[|isos| - 1]);
    }
  }

  lemma {:induction false} SinglesInOrder(isos: seq<seq<nat>>, n: nat)
    requires forall p :: p in isos ==> |p| == n
    ensures InOrder(SinglePairs(isos), n) && InRange(SinglePairs(isos), n)
  {
    hide OneSwap, SinglePairs;
    var r := SinglePairs(isos);
    forall k | 0 <= k < |r| ensures r[k].0 < r[k].1 < n {
      SinglePairsAre(isos, r[k]);
      var p :| p in isos && OneSwap(p) && TheSwap(p) == r[k];
      assert OnlySwaps(p, r[k]);
    }
  }

  lemma {:induction false} SingleRulesOut(isos: seq<seq<nat>>, p: seq<nat>)
    requires p in isos && OneSwap(p) && InRange(SinglePairs(isos), |p|)
    ensures RuledOut(SinglePairs(isos), p)
  {
    hide OneSwap, SinglePairs;
    var e := TheSwap(p);
    SinglePairsAre(isos, e);
    var k :| 0 <= k < |SinglePairs(isos)| && SinglePairs(isos)[k] == e;
    SwapRulesOut(SinglePairs(isos), p, k);
  }

  lemma {:induction false} PassStart(q: Query)
    requires q.Valid()
    ensures Removed(q, NotSingle(AutList(q)), SinglePairs(AutList(q)))
    ensures AllAutomorphisms(q, NotSingle(AutList(q))) && Distinct(NotSingle(AutList(q)))
  {
    hide RuledOut, Preserves, AutList, NotSingle, SinglePairs, OneSwap;
    var isos := AutList(q);
    AutListIs(q);
    assert forall p :: p in isos <==> p in Elements(isos);
    SinglesInOrder(isos, q.n);
    NotSingleDistinct(isos);
    var rest := NotSingle(isos);
    forall k | 0 <= k < |rest| ensures rest[k] in Automorphisms(q) {
      NotSingleAre(isos, rest[k]);
    }
    forall p | p in Automorphisms(q) && p !in rest ensures RuledOut(SinglePairs(isos), p) {
      NotSingleAre(isos, p);
      SingleRulesOut(isos, p);
    }
  }

  /** Every emitted set keeps at most one automorphic image of every assignment. */
  lemma {:induction false} EmittedKeepsOne(q: Query, r: seq<Pair>)
    requires q.Valid() && Emitted(q, r)
    ensures InOrder(r, q.n) && AtMostOneImage(q, r)
  {
    hide RuledOut, Preserves, Emits, AutList, NotSingle, SinglePairs, Removed, AtMostOneImage;
    PassStart(q);
    EmitsGood(q, NotSingle(AutList(q)), SinglePairs(AutList(q)), r);
    EliminationKeepsAtMostOne(q, r);
  }

  lemma {:induction false} SomethingEmitted(q: Query)
    requires q.Valid() && SwapsEverywhere(q)
    ensures exists r :: Emitted(q, r)
  {
    hide RuledOut, Preserves, Emits, AutList, NotSingle, SinglePairs, Removed, SwapsEverywhere;
    PassStart(q);
    EmitsSome(q, NotSingle(AutList(q)), SinglePairs(AutList(q)));
    var r :| Emits(NotSingle(AutList(q)), SinglePairs(AutList(q)), r);
    assert Emitted(q, r);
  }
}
