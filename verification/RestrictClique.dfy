/** Complete patterns: the search emits one set, the pairs of all single swaps, and it
    breaks the symmetry. */
module RestrictClique {
  import opened Counting
  import opened Patterns
  import opened Symmetry
  import opened Permutations
  import opened Restricts
  import opened RestrictEmission

  ghost predicate Clique(q: Query)
    requires q.Valid()
  {
    forall i, j :: 0 <= i < q.n && 0 <= j < q.n ==> (q.adj[i][j] <==> i != j)
  }

  lemma {:induction false} EveryPermutation(q: Query, p: seq<nat>)
    requires q.Valid() && Clique(q) && IsPerm(p, q.n)
    ensures p in Automorphisms(q)
  {
    forall i, j | 0 <= i < q.n && 0 <= j < q.n ensures q.adj[p[i]][p[j]] == q.adj[i][j] {
      assert i != j ==> p[i] != p[j];
    }
  }

  ghost function SwapOf(n: nat, e: Pair): (p: seq<nat>)
    requires e.0 < e.1 < n
    ensures IsPerm(p, n) && OnlySwaps(p, e)
  {
    seq(n, v => if v == e.0 then e.1 else if v == e.1 then e.0 else v)
  }

  /** The first pass records every pair. */
  lemma {:induction false} AllPairsRecorded(q: Query, e: Pair)
    requires q.Valid() && Clique(q) && e.0 < e.1 < q.n
    ensures e in SinglePairs(AutList(q))
  {
    hide OnlySwaps, AutList, SinglePairs, Preserves;
    var p := SwapOf(q.n, e);
    EveryPermutation(q, p);
    AutListIs(q);
    assert p in Elements(AutList(q));
    assert OneSwap(p);
    OneOnly(p, e, TheSwap(p));
    SinglePairsAre(AutList(q), e);
  }

  ghost predicate AllPairs(r: seq<Pair>, n: nat) {
    forall i: nat, j: nat :: i < j < n ==> (i, j) in r
  }

  lemma {:induction false} Climbs(p: seq<nat>, i: nat)
    requires (forall k :: 0 <= k < |p| - 1 ==> p[k] < p[k + 1]) && i < |p|
    ensures p[i] >= i
  {
    if i > 0 {
      Climbs(p, i - 1);
    }
  }

  lemma {:induction false} StaysUnder(p: seq<nat>, i: nat)
    requires (forall k :: 0 <= k < |p| - 1 ==> p[k] < p[k + 1]) && i < |p| && IsPerm(p, |p|)
    ensures p[i] <= i
    decreases |p| - i
  {
    if i + 1 < |p| {
      StaysUnder(p, i + 1);
    }
  }

  lemma {:induction false} Falls(r: seq<Pair>, more: seq<Pair>, f: seq<nat>, i: nat, j: nat)
    requires AllPairs(r, |f|) && Ordered(r + more, f) && i < j < |f|
    ensures f[i] > f[j]
  {
    assert (i, j) in r;
    var t :| 0 <= t < |r| && r[t] == (i, j);
    assert (r + more)[t] == (i, j);
  }

  lemma {:induction false} FallsMoved(r: seq<Pair>, p: seq<nat>, f: seq<nat>, i: nat, j: nat)
    requires IsPerm(p, |p|) && InRange(r, |p|) && |f| == |p|
    requires AllPairs(r, |f|) && Ordered(r + Moved(r, p), f) && i < j < |f|
    ensures f[p[i]] > f[p[j]]
  {
    assert (i, j) in r;
    var t :| 0 <= t < |r| && r[t] == (i, j);
    assert (r + Moved(r, p))[|r| + t] == (p[i], p[j]);
  }

  lemma {:induction false} OrderedIsIdentity(r: seq<Pair>, p: seq<nat>, f: seq<nat>)
    requires IsPerm(p, |p|) && InRange(r, |p|) && |f| == |p|
    requires AllPairs(r, |f|) && Ordered(r + Moved(r, p), f)
    ensures p == Identity(|p|)
  {
    forall k | 0 <= k < |p| - 1 ensures p[k] < p[k + 1] {
      FallsMoved(r, p, f, k, k + 1);
      if p[k + 1] < p[k] {
        Falls(r, Moved(r, p), f, p[k + 1], p[k]);
      }
    }
    forall i | 0 <= i < |p| ensures p[i] == i {
      Climbs(p, i);
      StaysUnder(p, i);
    }
  }

  /** With all pairs restricted, only the identity moves an ordered assignment to one. */
  lemma {:induction false} AllPairsRuleOut(r: seq<Pair>, p: seq<nat>)
    requires IsPerm(p, |p|) && InRange(r, |p|) && AllPairs(r, |p|) && p != Identity(|p|)
    ensures RuledOut(r, p)
  {
    hide Ordered;
    forall f | |f| == |p| ensures !Ordered(r + Moved(r, p), f) {
      if Ordered(r + Moved(r, p), f) {
        OrderedIsIdentity(r, p, f);
      }
    }
  }

  /** Sorting any assignment in descending order obeys every pair. */
  lemma {:induction false} Sortable(q: Query, r: seq<Pair>, f: seq<nat>)
    requires q.Valid() && Clique(q) && InOrder(r, q.n) && |f| == q.n && Injective(f)
    ensures HasImage(q, r, f)
  {
    RanksKeepOrder(f);
    var s := Ranks(f);
    var turn := seq(q.n, i requires 0 <= i < q.n => (q.n - 1 - i) as nat);
    assert IsPerm(turn, q.n);
    ComposeAssociates(s, Inverse(s), turn);
    var a := Compose(Inverse(s), turn);
    assert forall i :: 0 <= i < q.n ==> s[a[i]] == q.n - 1 - i;
    EveryPermutation(q, a);
    var h := Compose(f, a);
    forall k | 0 <= k < |r| ensures r[k].0 < |h| && r[k].1 < |h| && h[r[k].0] > h[r[k].1] {
      assert s[a[r[k].0]] > s[a[r[k].1]];
    }
    assert Ordered(r, h);
  }

  lemma {:induction false} LoneIdentity(s: seq<seq<nat>>, id: seq<nat>)
    requires Distinct(s) && id in s && forall p :: p in s ==> p == id
    ensures s == [id]
  {
    DistinctSize(s);
    assert Elements(s) == {id};
    assert s[0] in s;
  }

  lemma {:induction false} OnlyIdentityLeft(q: Query)
    requires q.Valid() && Clique(q)
    ensures Survivors(NotSingle(AutList(q)), SinglePairs(AutList(q))) == [Identity(q.n)]
  {
    hide RuledOut, Preserves, AutList, NotSingle, SinglePairs, Survivors, Clique;
    var rest, pairs := NotSingle(AutList(q)), SinglePairs(AutList(q));
    PassStart(q);
    SurvivorsRemoved(q, rest, pairs);
    SurvivorsDistinct(rest, pairs);
    var s := Survivors(rest, pairs);
    IdentityStays(q, s, pairs);
    forall i: nat, j: nat | i < j < q.n ensures (i, j) in pairs {
      AllPairsRecorded(q, (i, j));
    }
    forall p | p in s ensures p == Identity(q.n) {
      var k :| 0 <= k < |s| && s[k] == p;
      if p != Identity(q.n) {
        AllPairsRuleOut(pairs, s[k]);
      }
    }
    LoneIdentity(s, Identity(q.n));
  }

  /** A complete pattern has one emitted set, and it breaks the symmetry. */
  lemma {:induction false} CliqueEmits(q: Query)
    requires q.Valid() && Clique(q)
    ensures forall r :: Emitted(q, r) <==> r == SinglePairs(AutList(q))
    ensures BreaksSymmetry(q, SinglePairs(AutList(q)))
  {
    hide AtMostOneImage, HasImage, Preserves, AutList, NotSingle, SinglePairs, Survivors, Clique, Removed, RuledOut;
    var pairs := SinglePairs(AutList(q));
    OnlyIdentityLeft(q);
    assert forall r :: Emitted(q, r) <==> r == pairs;
    EmittedKeepsOne(q, pairs);
    forall f | |f| == q.n && Injective(f) ensures HasImage(q, pairs, f) {
      Sortable(q, pairs, f);
    }
  }
}
