/** A schedule: the tree of neighbour-list prefixes that the loops share, and the
    restrictions attached to each loop. */
module Schedules {
  import opened Counting
  import opened Patterns
  import opened LinkedKeys

  /** The earlier neighbours of vertex i, ascending. */
  ghost function Earlier(adj: Matrix, i: nat, k: nat): (r: seq<nat>)
    requires Square(adj, |adj|) && i < |adj| && k <= |adj|
    ensures Sorted(r)
    ensures forall j :: 0 <= j < |r| ==> r[j] < k && adj[i][r[j]]
    ensures forall j: nat :: j < k && adj[i][j] ==> j in r
  {
    if k == 0 then [] else Earlier(adj, i, k - 1) + if adj[i][k - 1] then [k - 1] else []
  }

  ghost function Nbrs(adj: Matrix, i: nat): (r: seq<nat>)
    requires Square(adj, |adj|) && i < |adj|
    ensures Sorted(r)
    ensures forall j :: 0 <= j < |r| ==> r[j] < i && adj[i][r[j]]
    ensures forall j: nat :: j < i && adj[i][j] ==> j in r
  {
    Earlier(adj, i, i)
  }

  /** Every vertex after the first has an earlier neighbour. */
  ghost predicate Connected(adj: Matrix)
    requires Square(adj, |adj|)
  {
    forall i :: 1 <= i < |adj| ==> |Nbrs(adj, i)| > 0
  }

  /** The number of prefix slots: loop i needs at most i of them. */
  function MaxPrefixNum(n: nat): nat {
    if n == 0 then 0 else MaxPrefixNum(n - 1) + (n - 1)
  }

  lemma {:induction false} MaxPrefixNumClosed(n: nat)
    ensures MaxPrefixNum(n) == n * (n - 1) / 2
  {
    if n > 0 {
      MaxPrefixNumClosed(n - 1);
      assert n * (n - 1) == (n - 1) * (n - 2) + 2 * (n - 1);
    }
  }

  lemma {:induction false} MaxPrefixNumGrows(i: nat, n: nat)
    requires i <= n
    ensures MaxPrefixNum(i) <= MaxPrefixNum(n)
  {
    if i < n {
      MaxPrefixNumGrows(i, n - 1);
    }
  }

  lemma {:induction false} FewNbrs(adj: Matrix, i: nat)
    requires Square(adj, |adj|) && i < |adj|
    ensures |Nbrs(adj, i)| <= i
  {
    var r := Nbrs(adj, i);
    forall k | 0 <= k < |r| ensures r[k] < i {}
    SortedBelow(r, i);
  }

  lemma {:induction false} SortedBelow(r: seq<nat>, n: nat)
    requires Sorted(r) && forall k :: 0 <= k < |r| ==> r[k] < n
    ensures |r| <= n
  {
    DistinctSize(r);
    assert Elements(r) <= Below(n);
    SubsetSize(Elements(r), Below(n));
  }

  ghost function LastOf(p: seq<nat>): nat
    requires |p| > 0
  {
    p[|p| - 1]
  }

  ghost predicate IsPrefix(p: seq<nat>, n: nat) {
    |p| > 0 && Sorted(p) && LastOf(p) < n
  }

  ghost function Keys(prefix: seq<seq<nat>>): (r: seq<nat>)
    requires forall p :: 0 <= p < |prefix| ==> |prefix[p]| > 0
    ensures |r| == |prefix|
  {
    seq(|prefix|, p requires 0 <= p < |prefix| => LastOf(prefix[p]))
  }

  /** Each entry extends its father by one element, and the father came first. */
  ghost predicate FatherOf(prefix: seq<seq<nat>>, father: seq<int>, p: nat)
    requires p < |prefix| <= |father|
  {
    && |prefix[p]| > 0
    && if |prefix[p]| == 1 then father[p] == -1
       else 0 <= father[p] < p && prefix[father[p]] == prefix[p][..|prefix[p]| - 1]
  }

  ghost predicate Tree(prefix: seq<seq<nat>>, father: seq<int>, last: seq<int>, next: seq<int>, n: nat) {
    && |last| == n && |father| == |next| && |prefix| <= |father|
    && Distinct(prefix)
    && (forall p :: 0 <= p < |prefix| ==> IsPrefix(prefix[p], n))
    && (forall p :: 0 <= p < |prefix| ==> FatherOf(prefix, father, p))
    && Linked(Keys(prefix), last, next)
  }

  /** Entry p is a prefix of the neighbour list of some loop up to i. */
  ghost predicate Used(adj: Matrix, p: seq<nat>, i: nat)
    requires Square(adj, |adj|)
  {
    exists k :: 1 <= k < i && k < |adj| && p <= Nbrs(adj, k)
  }

  /** The loops below i know their sets, and every prefix serves one of them. */
  ghost predicate LoopsBuilt(adj: Matrix, prefix: seq<seq<nat>>, loopSet: seq<int>, i: nat)
    requires Square(adj, |adj|)
  {
    && |loopSet| == |adj|
    && (forall k :: 1 <= k < i && k < |adj| ==> 0 <= loopSet[k] < |prefix| && prefix[loopSet[k]] == Nbrs(adj, k))
    && (forall p :: 0 <= p < |prefix| ==> Used(adj, prefix[p], i))
  }

  lemma {:induction false} LoopsStart(adj: Matrix, loopSet: seq<int>)
    requires Square(adj, |adj|) && |loopSet| == |adj|
    ensures LoopsBuilt(adj, [], loopSet, 1)
  {
  }

  lemma {:induction false} UsedGrows(adj: Matrix, p: seq<nat>, i: nat)
    requires Square(adj, |adj|) && 1 <= i < |adj|
    requires Used(adj, p, i) || p <= Nbrs(adj, i)
    ensures Used(adj, p, i + 1)
  {
    if Used(adj, p, i) {
      var k :| 1 <= k < i && k < |adj| && p <= Nbrs(adj, k);
    }
  }

  lemma {:induction false} LoopAdded(adj: Matrix, before: seq<seq<nat>>, after: seq<seq<nat>>, loopSet: seq<int>, i: nat, id: int)
    requires Square(adj, |adj|) && 1 <= i < |adj| && before <= after
    requires LoopsBuilt(adj, before, loopSet, i)
    requires forall p :: |before| <= p < |after| ==> after[p] <= Nbrs(adj, i)
    requires 0 <= id < |after| && after[id] == Nbrs(adj, i)
    ensures LoopsBuilt(adj, after, loopSet[i := id], i + 1)
  {
    hide Nbrs, Used;
    forall p | 0 <= p < |after| ensures Used(adj, after[p], i + 1) {
      if p < |before| {
        assert after[p] == before[p];
      }
      UsedGrows(adj, after[p], i);
    }
    forall k | 1 <= k < i ensures 0 <= loopSet[k] < |after| && after[loopSet[k]] == Nbrs(adj, k) {
      assert after[loopSet[k]] == before[loopSet[k]];
    }
  }

  /** restrict_index, restrict_last and restrict_next hold `pairs` by second element. */
  ghost predicate Restrictions(pairs: seq<Pair>, rlast: seq<int>, rnext: seq<int>, rindex: seq<nat>, n: nat) {
    && |rlast| == n && |rindex| == |pairs|
    && InOrder(pairs, n)
    && (forall k :: 0 <= k < |pairs| ==> rindex[k] == pairs[k].0)
    && Linked(Seconds(pairs), rlast, rnext)
  }

  ghost function Seconds(pairs: seq<Pair>): (r: seq<nat>)
    ensures |r| == |pairs|
  {
    seq(|pairs|, k requires 0 <= k < |pairs| => pairs[k].1)
  }

  lemma {:induction false} TreeGrows(prefix: seq<seq<nat>>, father: seq<int>, last: seq<int>, next: seq<int>, n: nat,
                                     data: seq<nat>, f: int)
    requires Tree(prefix, father, last, next, n) && |prefix| < |father|
    requires IsPrefix(data, n) && data !in prefix
    requires if |data| == 1 then f == -1 else 0 <= f < |prefix| && prefix[f] == data[..|data| - 1]
    ensures Tree(prefix + [data], father[|prefix| := f], last[LastOf(data) := |prefix|],
      next[|prefix| := last[LastOf(data)]], n)
  {
    var k := |prefix|;
    var prefix', father' := prefix + [data], father[k := f];
    forall p | 0 <= p < |prefix'| ensures FatherOf(prefix', father', p) && IsPrefix(prefix'[p], n) {
      if p < k {
        assert FatherOf(prefix, father, p) && IsPrefix(prefix[p], n);
      }
    }
    assert Keys(prefix') == Keys(prefix) + [LastOf(data)];
    Push(Keys(prefix), last, next, LastOf(data));
  }

  lemma {:induction false} ButLast(data: seq<nat>, n: nat)
    requires IsPrefix(data, n)
    ensures Sorted(data[..|data| - 1])
    ensures |data| > 1 ==> LastOf(data[..|data| - 1]) < n
  {
    var shorter := data[..|data| - 1];
    forall i, j | 0 <= i < j < |shorter| ensures shorter[i] < shorter[j] {
      assert data[i] < data[j];
    }
    if |data| > 1 {
      assert data[|data| - 2] < data[|data| - 1];
    }
  }

  class Schedule {
    const size: nat
    const adjMat: Matrix
    var fatherPrefixId: seq<int>
    var last: seq<int>
    var next: seq<int>
    var loopSetPrefixId: seq<int>
    /** The first totalPrefixNum prefixes. */
    var prefix: seq<seq<nat>>
    var restrictLast: seq<int>
    var restrictNext: seq<int>
    var restrictIndex: seq<nat>
    var restrictPair: seq<Pair>

    ghost predicate Shape()
      reads this
    {
      && Square(adjMat, size)
      && |fatherPrefixId| == MaxPrefixNum(size)
      && Tree(prefix, fatherPrefixId, last, next, size)
    }

    ghost predicate Valid()
      reads this
    {
      && Shape() && LoopsBuilt(adjMat, prefix, loopSetPrefixId, size)
      && Restrictions(restrictPair, restrictLast, restrictNext, restrictIndex, size)
    }

    constructor (adj: Matrix)
      requires |adj| > 0 && Square(adj, |adj|) && Connected(adj)
      ensures Valid() && size == |adj| && adjMat == adj && restrictPair == []
    {
      size, adjMat := |adj|, adj;
      fatherPrefixId := seq(MaxPrefixNum(|adj|), _ => -1);
      next := seq(MaxPrefixNum(|adj|), _ => -1);
      last := seq(|adj|, _ => -1);
      loopSetPrefixId := seq(|adj|, _ => -1);
      prefix := [];
      restrictLast, restrictNext, restrictIndex := seq(|adj|, _ => -1), [], [];
      restrictPair := [];
      new;
      NoEntries(size, MaxPrefixNum(size));
      NoEntries(size, 0);
      assert Keys(prefix) == [] && Seconds(restrictPair) == [];
      BuildLoopInvariant();
    }

    /** The neighbours of i among the earlier vertices. */
    method EarlierNeighbours(i: nat) returns (data: seq<nat>)
      requires Square(adjMat, size) && i < size
      ensures data == Nbrs(adjMat, i)
    {
      data := [];
      for j := 0 to i
        invariant data == Earlier(adjMat, i, j)
      {
        if adjMat[i][j] {
          data := data + [j];
        }
      }
    }

    method BuildLoopInvariant()
      requires size > 0 && Shape() && Connected(adjMat) && prefix == [] && |loopSetPrefixId| == size
      modifies `fatherPrefixId, `last, `next, `prefix, `loopSetPrefixId
      ensures Shape() && LoopsBuilt(adjMat, prefix, loopSetPrefixId, size)
    {
      hide LoopsBuilt, Tree, Nbrs;
      LoopsStart(adjMat, loopSetPrefixId);
      for i := 1 to size
        invariant Shape() && LoopsBuilt(adjMat, prefix, loopSetPrefixId, i)
        invariant |prefix| <= MaxPrefixNum(i) && |loopSetPrefixId| == size
      {
        var data := EarlierNeighbours(i);
        FewNbrs(adjMat, i);
        MaxPrefixNumGrows(i + 1, size);
        ghost var before := prefix;
        var id := FindFatherPrefix(data);
        LoopAdded(adjMat, before, prefix, loopSetPrefixId, i, id);
        loopSetPrefixId := loopSetPrefixId[i := id];
      }
    }

    /** Looks `data` up, or stores it after its father. */
    method FindFatherPrefix(data: seq<nat>) returns (id: int)
      requires Shape() && Sorted(data) && (|data| > 0 ==> LastOf(data) < size)
      requires |prefix| + |data| <= |fatherPrefixId|
      modifies `fatherPrefixId, `last, `next, `prefix
      ensures Shape()
      ensures if |data| == 0 then id == -1 else 0 <= id < |prefix| && prefix[id] == data
      ensures old(prefix) <= prefix && |prefix| <= |old(prefix)| + |data|
      ensures forall p :: |old(prefix)| <= p < |prefix| ==> prefix[p] <= data
      decreases |data|
    {
      hide FatherOf, Square;
      if |data| == 0 {
        return -1;
      }
      var num := data[|data| - 1];
      var e := last[num];
      assert Newest(Keys(prefix), last[num], num, |prefix|);
      NotBetween(prefix, last[num], |prefix|, data);
      while e != -1
        invariant -1 <= e < |prefix| && (e >= 0 ==> Keys(prefix)[e] == num)
        invariant forall p :: e < p < |prefix| ==> prefix[p] != data
        modifies {}
        decreases e
      {
        if prefix[e] == data {
          return e;
        }
        assert Newest(Keys(prefix), next[e], num, e);
        NotBetween(prefix, next[e], e, data);
        e := next[e];
      }
      var shorter := data[..|data| - 1];
      ButLast(data, size);
      var father := FindFatherPrefix(shorter);
      assert data !in prefix;
      TreeGrows(prefix, fatherPrefixId, last, next, size, data, father);
      id := |prefix|;
      fatherPrefixId := fatherPrefixId[id := father];
      next := next[id := last[num]];
      last := last[num := id];
      prefix := prefix + [data];
    }

    method AddRestrict(restricts: seq<Pair>)
      requires Valid() && InOrder(restricts, size)
      modifies `restrictPair, `restrictLast, `restrictNext, `restrictIndex
      ensures Valid()
      ensures forall f :: Ordered(restrictPair, f) <==> Ordered(restricts, f)
      ensures NoneImplied(restrictPair, |restrictPair|) && forall e :: e in restrictPair ==> e in restricts
    {
      hide Seconds, Linked, Ordered, Tree, Newest, LoopsBuilt, Square, NoneImplied;
      restrictPair := EraseImplied(restricts, size);
      restrictLast := seq(size, _ => -1);
      restrictNext := seq(|restrictPair|, _ => -1);
      restrictIndex := [];
      NoEntries(size, |restrictPair|);
      NoSeconds(restrictPair);
      for k := 0 to |restrictPair|
        invariant |restrictLast| == size && |restrictNext| == |restrictPair| && |restrictIndex| == k
        invariant forall j :: 0 <= j < k ==> restrictIndex[j] == restrictPair[j].0
        invariant Linked(Seconds(restrictPair[..k]), restrictLast, restrictNext)
        invariant InOrder(restrictPair, size)
        invariant forall f :: Ordered(restrictPair, f) <==> Ordered(restricts, f)
        invariant NoneImplied(restrictPair, |restrictPair|) && forall e :: e in restrictPair ==> e in restricts
        modifies `restrictLast, `restrictNext, `restrictIndex
      {
        var p := restrictPair[k];
        Push(Seconds(restrictPair[..k]), restrictLast, restrictNext, p.1);
        SecondsGrow(restrictPair, k);
        restrictIndex := restrictIndex + [p.0];
        restrictNext := restrictNext[k := restrictLast[p.1]];
        restrictLast := restrictLast[p.1 := k];
      }
      assert restrictPair[..|restrictPair|] == restrictPair;
    }
  }

  lemma {:induction false} NoSeconds(pairs: seq<Pair>)
    ensures Seconds(pairs[..0]) == []
  {
  }

  lemma {:induction false} SecondsGrow(pairs: seq<Pair>, k: nat)
    requires k < |pairs|
    ensures Seconds(pairs[..k + 1]) == Seconds(pairs[..k]) + [pairs[k].1]
  {
  }

  lemma {:induction false} NotBetween(prefix: seq<seq<nat>>, lo: int, hi: int, data: seq<nat>)
    requires -1 <= lo < hi <= |prefix| && |data| > 0
    requires forall p :: 0 <= p < |prefix| ==> |prefix[p]| > 0
    requires Newest(Keys(prefix), lo, LastOf(data), hi)
    ensures forall p :: lo < p < hi ==> prefix[p] != data
  {
    forall p | lo < p < hi ensures prefix[p] != data {
      assert Keys(prefix)[p] != LastOf(data);
    }
  }

  // ----- restrictions -----

  /** Pair i follows from two other pairs through a common vertex. */
  ghost predicate ImpliedBy(pairs: seq<Pair>, i: nat, j: nat, k: nat) {
    && i < |pairs| && j < |pairs| && k < |pairs| && i != j && i != k && j != k
    && pairs[j].0 == pairs[i].0 && pairs[k].1 == pairs[i].1 && pairs[j].1 == pairs[k].0
  }

  lemma {:induction false} DropKeepsMeaning(pairs: seq<Pair>, i: nat, j: nat, k: nat, f: seq<nat>)
    requires ImpliedBy(pairs, i, j, k)
    ensures Ordered(Erase(pairs, i), f) <==> Ordered(pairs, f)
  {
    var rest := Erase(pairs, i);
    if Ordered(pairs, f) {
      forall m | 0 <= m < |rest| ensures rest[m].0 < |f| && rest[m].1 < |f| && f[rest[m].0] > f[rest[m].1] {
        assert rest[m] == pairs[if m < i then m else m + 1];
      }
    }
    if Ordered(rest, f) {
      forall m | 0 <= m < |pairs| && m != i
        ensures pairs[m].0 < |f| && pairs[m].1 < |f| && f[pairs[m].0] > f[pairs[m].1]
      {
        assert pairs[m] == rest[if m < i then m else m - 1];
      }
    }
  }

  /** None of the first i pairs follows from two others. */
  ghost predicate NoneImplied(pairs: seq<Pair>, i: nat) {
    forall a: nat, j: nat, k: nat :: a < i ==> !ImpliedBy(pairs, a, j, k)
  }

  lemma {:induction false} EraseStillNone(pairs: seq<Pair>, i: nat)
    requires i < |pairs| && NoneImplied(pairs, i)
    ensures NoneImplied(Erase(pairs, i), i)
  {
    var rest := Erase(pairs, i);
    forall a: nat, j: nat, k: nat | a < i ensures !ImpliedBy(rest, a, j, k) {
      assert !ImpliedBy(pairs, a, if j < i then j else j + 1, if k < i then k else k + 1);
    }
  }

  method FindImplied(pairs: seq<Pair>, i: nat) returns (found: bool, ghost j: nat, ghost k: nat)
    requires i < |pairs|
    ensures found ==> ImpliedBy(pairs, i, j, k)
    ensures !found ==> forall a: nat, b: nat :: !ImpliedBy(pairs, i, a, b)
  {
    for a := 0 to |pairs|
      invariant forall c: nat, b: nat :: c < a ==> !ImpliedBy(pairs, i, c, b)
    {
      if i != a && pairs[a].0 == pairs[i].0 {
        for b := 0 to |pairs|
          invariant forall c: nat :: c < b ==> !ImpliedBy(pairs, i, a, c)
        {
          if i != b && a != b && pairs[b].1 == pairs[i].1 && pairs[a].1 == pairs[b].0 {
            return true, a, b;
          }
        }
      }
    }
    return false, 0, 0;
  }

  /** The erasing loop: implied pairs go, the satisfying assignments stay. */
  method EraseImplied(restricts: seq<Pair>, n: nat) returns (pairs: seq<Pair>)
    requires InOrder(restricts, n)
    ensures InOrder(pairs, n)
    ensures forall f :: Ordered(pairs, f) <==> Ordered(restricts, f)
    ensures NoneImplied(pairs, |pairs|) && forall e :: e in pairs ==> e in restricts
  {
    pairs := restricts;
    var i := 0;
    while i < |pairs|
      invariant 0 <= i <= |pairs| && InOrder(pairs, n)
      invariant NoneImplied(pairs, i) && forall e :: e in pairs ==> e in restricts
      invariant forall f :: Ordered(pairs, f) <==> Ordered(restricts, f)
      decreases |pairs| - i
    {
      var found, j, k := FindImplied(pairs, i);
      if found {
        EraseStillNone(pairs, i);
        forall f ensures Ordered(Erase(pairs, i), f) <==> Ordered(restricts, f) {
          DropKeepsMeaning(pairs, i, j, k, f);
        }
        pairs := Erase(pairs, i);
      } else {
        i := i + 1;
      }
    }
  }
}
