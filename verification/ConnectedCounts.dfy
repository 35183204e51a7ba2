/** The bitmask loop of init_in_exclusion_optimize: it counts connected graphs by
    parity, and the difference is the closed form. */
module ConnectedCounts {
  import opened Arithmetic
  import opened Counting
  import opened Patterns
  import opened Partitions
  import opened DisjointSets
  import opened SignedGraphs

  function Pow2(k: nat): (p: nat)
    ensures p > 0
  {
    if k == 0 then 1 else 2 * Pow2(k - 1)
  }

  function Bit(s: nat, i: nat): bool {
    (s / Pow2(i)) % 2 == 1
  }

  lemma {:induction false} DoubleFirst(a: nat, b: nat)
    ensures 2 * (a * b) == (2 * a) * b
  {
  }

  lemma {:induction false} Pow2Splits(i: nat, j: nat)
    ensures Pow2(i + j) == Pow2(i) * Pow2(j)
  {
    if i > 0 {
      Pow2Splits(i - 1, j);
      DoubleFirst(Pow2(i - 1), Pow2(j));
    }
  }

  lemma {:induction false} ShiftedQuotient(s: nat, m: nat, k: nat)
    requires m > 0
    ensures (m * k + s) / m == k + s / m
  {
    var x := m * k + s;
    assert s == m * (s / m) + s % m;
    assert m * (k + s / m) == m * k + m * (s / m);
    QuotientUnique(m, x / m, x % m, k + s / m, s % m);
  }

  lemma {:induction false} EvenShift(h: nat, x: nat)
    ensures (2 * h + x) % 2 == x % 2
  {
  }

  lemma {:induction false} HighPartApart(m: nat, h: nat, s: nat)
    requires m > 0
    ensures ((m * (2 * h) + s) / m) % 2 == (s / m) % 2
  {
    ShiftedQuotient(s, m, 2 * h);
    EvenShift(h, s / m);
  }

  /** Adding the top bit changes no lower bit. */
  lemma {:induction false} TopBitApart(k: nat, s: nat, i: nat)
    requires i < k
    ensures Bit(Pow2(k) + s, i) == Bit(s, i)
  {
    Pow2Splits(i, k - i);
    HighPartApart(Pow2(i), Pow2(k - i - 1), s);
  }

  lemma {:induction false} TopBit(k: nat, s: nat)
    requires s < Pow2(k)
    ensures !Bit(s, k) && Bit(Pow2(k) + s, k)
  {
    QuotientUnique(Pow2(k), s / Pow2(k), s % Pow2(k), 0, s);
    ShiftedQuotient(s, Pow2(k), 1);
  }

  /** The partition after joining the edges whose bits are set, lowest bit first. */
  ghost function Merged(es: seq<Pair>, k: nat, s: nat, part: seq<nat>): (r: seq<nat>)
    requires Fits(es, k, part)
    ensures |r| == |part| && IsPartition(r)
  {
    if k == 0 then
      part
    else
      var p := Merged(es, k - 1, s, part);
      if Bit(s, k - 1) then Join(p, es[k - 1].0, es[k - 1].1) else p
  }

  ghost function Ones(s: nat, k: nat): nat {
    if k == 0 then 0 else Ones(s, k - 1) + if Bit(s, k - 1) then 1 else 0
  }

  ghost function Sign(c: nat): int { if c % 2 == 0 then 1 else -1 }

  ghost function Share(es: seq<Pair>, k: nat, s: nat, part: seq<nat>): int
    requires Fits(es, k, part)
  {
    if ClassCount(Merged(es, k, s, part)) == 1 then Sign(Ones(s, k)) else 0
  }

  /** The signed sum over the subsets numbered below t. */
  ghost function Total(es: seq<Pair>, k: nat, part: seq<nat>, t: nat): int
    requires Fits(es, k, part)
  {
    if t == 0 then 0 else Total(es, k, part, t - 1) + Share(es, k, t - 1, part)
  }

  lemma {:induction false} SameLowBits(es: seq<Pair>, k: nat, s: nat, t: nat, part: seq<nat>)
    requires Fits(es, k, part)
    requires forall i :: 0 <= i < k ==> Bit(s, i) == Bit(t, i)
    ensures Merged(es, k, s, part) == Merged(es, k, t, part) && Ones(s, k) == Ones(t, k)
  {
    if k > 0 {
      SameLowBits(es, k - 1, s, t, part);
    }
  }

  /** Edges may be joined in any order. */
  lemma {:induction false} MergedCommutes(es: seq<Pair>, k: nat, s: nat, part: seq<nat>, a: nat, b: nat)
    requires Fits(es, k, part) && a < |part| && b < |part|
    ensures Merged(es, k, s, Join(part, a, b)) == Join(Merged(es, k, s, part), a, b)
  {
    if k > 0 {
      MergedCommutes(es, k - 1, s, part, a, b);
      if Bit(s, k - 1) {
        JoinsCommute(Merged(es, k - 1, s, part), a, b, es[k - 1].0, es[k - 1].1);
      }
    }
  }

  lemma {:induction false} TopBitMerges(es: seq<Pair>, k: nat, s: nat, part: seq<nat>)
    requires Fits(es, k + 1, part) && s < Pow2(k)
    ensures Ones(Pow2(k) + s, k + 1) == Ones(s, k) + 1
    ensures Merged(es, k + 1, Pow2(k) + s, part) == Merged(es, k, s, Join(part, es[k].0, es[k].1))
  {
    var top := Pow2(k) + s;
    TopBit(k, s);
    forall i | 0 <= i < k ensures Bit(top, i) == Bit(s, i) {
      TopBitApart(k, s, i);
    }
    SameLowBits(es, k, top, s, part);
    MergedCommutes(es, k, s, part, es[k].0, es[k].1);
  }

  lemma {:induction false} HighShare(es: seq<Pair>, k: nat, s: nat, part: seq<nat>)
    requires Fits(es, k, part) && k > 0 && s < Pow2(k - 1)
    ensures Share(es, k, Pow2(k - 1) + s, part)
      == -Share(es, k - 1, s, Join(part, es[k - 1].0, es[k - 1].1))
  {
    hide Merged, Join, Ones, Pow2, Bit, ClassCount;
    TopBitMerges(es, k - 1, s, part);
  }

  lemma {:induction false} LowHalf(es: seq<Pair>, k: nat, part: seq<nat>, t: nat)
    requires Fits(es, k, part) && k > 0 && t <= Pow2(k - 1)
    ensures Total(es, k, part, t) == Total(es, k - 1, part, t)
    decreases t
  {
    if t > 0 {
      LowHalf(es, k, part, t - 1);
      TopBit(k - 1, t - 1);
    }
  }

  lemma {:induction false} HighHalf(es: seq<Pair>, k: nat, part: seq<nat>, t: nat)
    requires Fits(es, k, part) && k > 0 && t <= Pow2(k - 1)
    ensures Total(es, k, part, Pow2(k - 1) + t)
      == Total(es, k, part, Pow2(k - 1)) - Total(es, k - 1, Join(part, es[k - 1].0, es[k - 1].1), t)
    decreases t
  {
    hide Share, Merged, Join, Ones, Bit, ClassCount, Pow2;
    if t > 0 {
      HighHalf(es, k, part, t - 1);
      HighShare(es, k, t - 1, part);
    }
  }

  lemma {:induction false} OnlySubset(es: seq<Pair>, part: seq<nat>)
    requires Fits(es, 0, part)
    ensures Total(es, 0, part, Pow2(0)) == Signed(es, 0, part)
  {
    assert Total(es, 0, part, 1) == Total(es, 0, part, 0) + Share(es, 0, 0, part);
  }

  /** Adding up over bitmasks is the same as deciding the edges one by one. */
  lemma {:induction false} TotalIsSigned(es: seq<Pair>, k: nat, part: seq<nat>)
    requires Fits(es, k, part)
    ensures Total(es, k, part, Pow2(k)) == Signed(es, k, part)
    decreases k
  {
    hide Join, Merged, Bit, ClassCount;
    if k == 0 {
      OnlySubset(es, part);
    } else {
      hide Total, Share;
      var joined := Join(part, es[k - 1].0, es[k - 1].1);
      LowHalf(es, k, part, Pow2(k - 1));
      HighHalf(es, k, part, Pow2(k - 1));
      TotalIsSigned(es, k - 1, part);
      TotalIsSigned(es, k - 1, joined);
      assert Pow2(k) == Pow2(k - 1) + Pow2(k - 1);
    }
  }

  // ----- connected graphs -----

  /** A labelling that does not change along the chosen edges. */
  ghost predicate Follows(l: seq<nat>, es: seq<Pair>, k: nat, s: nat)
    requires k <= |es|
  {
    forall i :: 0 <= i < k && Bit(s, i) ==> es[i].0 < |l| && es[i].1 < |l| && l[es[i].0] == l[es[i].1]
  }

  ghost predicate Constant(l: seq<nat>) {
    forall x, y :: 0 <= x < |l| && 0 <= y < |l| ==> l[x] == l[y]
  }

  /** The chosen edges connect all n vertices: no labelling tells two of them apart. */
  ghost predicate ConnectedBy(n: nat, es: seq<Pair>, s: nat) {
    forall l: seq<nat> :: |l| == n && Follows(l, es, |es|, s) ==> Constant(l)
  }

  lemma {:induction false} MergedFollows(es: seq<Pair>, k: nat, s: nat, part: seq<nat>)
    requires Fits(es, k, part)
    ensures Follows(Merged(es, k, s, part), es, k, s)
  {
    hide Bit;
    if k > 0 {
      MergedFollows(es, k - 1, s, part);
    }
  }

  /** Merging joins no more than the edges ask for. */
  lemma {:induction false} MergedIsLeast(es: seq<Pair>, k: nat, s: nat, l: seq<nat>)
    requires Fits(es, k, Discrete(|l|)) && Follows(l, es, k, s)
    ensures var p := Merged(es, k, s, Discrete(|l|));
      forall x, y :: 0 <= x < |l| && 0 <= y < |l| && p[x] == p[y] ==> l[x] == l[y]
  {
    hide Bit;
    if k > 0 {
      MergedIsLeast(es, k - 1, s, l);
      var p := Merged(es, k - 1, s, Discrete(|l|));
      if Bit(s, k - 1) {
        JoinFollows(p, es[k - 1].0, es[k - 1].1, l);
      }
    }
  }

  lemma {:induction false} JoinFollows(part: seq<nat>, a: nat, b: nat, l: seq<nat>)
    requires IsPartition(part) && |l| == |part| && a < |l| && b < |l| && l[a] == l[b]
    requires forall x, y :: 0 <= x < |l| && 0 <= y < |l| && part[x] == part[y] ==> l[x] == l[y]
    ensures forall x, y :: 0 <= x < |l| && 0 <= y < |l| && Join(part, a, b)[x] == Join(part, a, b)[y] ==> l[x] == l[y]
  {
  }

  lemma {:induction false} OneClass(part: seq<nat>)
    requires |part| > 0
    ensures ClassCount(part) == 1 <==> Constant(part)
  {
    assert part[0] in Elements(part);
    if Constant(part) {
      assert Elements(part) == {part[0]};
    }
    if ClassCount(part) == 1 {
      SubsetSize({part[0]}, Elements(part));
      SingleClass(Elements(part), part[0]);
      forall x | 0 <= x < |part| ensures part[x] == part[0] {
        assert part[x] in Elements(part);
      }
    }
  }

  lemma {:induction false} SingleClass(s: set<nat>, x: nat)
    requires |s| == 1 && x in s
    ensures s == {x}
  {
    SubsetSize({x}, s);
  }

  /** One class is left exactly when the chosen edges form a connected graph. */
  lemma {:induction false} MergedIsConnected(n: nat, es: seq<Pair>, s: nat)
    requires n > 0 && EdgesFit(es, n)
    ensures ClassCount(Merged(es, |es|, s, Discrete(n))) == 1 <==> ConnectedBy(n, es, s)
  {
    hide Merged, Bit, Follows, ClassCount;
    var p := Merged(es, |es|, s, Discrete(n));
    OneClass(p);
    MergedFollows(es, |es|, s, Discrete(n));
    if Constant(p) {
      forall l: seq<nat> | |l| == n && Follows(l, es, |es|, s) ensures Constant(l) {
        MergedIsLeast(es, |es|, s, l);
      }
    }
  }

  lemma {:induction false} MergedDecides(n: nat, s: nat)
    requires n > 0
    ensures var es := AllEdges(n);
      forall odd :: IsConnected(n, odd, s)
        <==> ClassCount(Merged(es, |es|, s, Discrete(n))) == 1 && (odd <==> Ones(s, |es|) % 2 == 1)
  {
    hide Merged, Bit, ConnectedBy, ClassCount;
    MergedIsConnected(n, AllEdges(n), s);
  }

  lemma {:induction false} MuOfOne()
    ensures Mu(1) == 1
  {
  }

  /** The connected graphs numbered below t, with an odd or even number of edges. */
  ghost function ConnectedGraphs(n: nat, odd: bool, t: nat): set<nat> {
    set s | s in Below(t) && IsConnected(n, odd, s)
  }

  ghost predicate IsConnected(n: nat, odd: bool, s: nat) {
    ConnectedBy(n, AllEdges(n), s) && (odd <==> Ones(s, |AllEdges(n)|) % 2 == 1)
  }

  lemma {:induction false} NoGraphs(n: nat, odd: bool)
    ensures |ConnectedGraphs(n, odd, 0)| == 0
  {
    assert ConnectedGraphs(n, odd, 0) == {};
  }

  lemma {:induction false} OneMoreGraph(n: nat, odd: bool, t: nat)
    ensures |ConnectedGraphs(n, odd, t + 1)| == |ConnectedGraphs(n, odd, t)| + if IsConnected(n, odd, t) then 1 else 0
  {
    hide IsConnected;
    var a := ConnectedGraphs(n, odd, t);
    if IsConnected(n, odd, t) {
      assert ConnectedGraphs(n, odd, t + 1) == a + {t};
    } else {
      assert ConnectedGraphs(n, odd, t + 1) == a;
    }
  }

  /** All graphs on n vertices, one per bitmask over the edges. */
  ghost function GraphCount(n: nat): nat {
    Pow2(|AllEdges(n)|)
  }

  method ListEdges(n: nat) returns (edge: seq<Pair>)
    ensures edge == AllEdges(n)
  {
    edge := [];
    for i := 0 to n
      invariant edge == AllEdges(i)
    {
      for j := 0 to i
        invariant edge == AllEdges(i) + Star(i, j)
      {
        edge := edge + [(i, j)];
        assert Star(i, j + 1) == Star(i, j) + [(i, j)];
      }
    }
  }

  /** One subset: merge its edges and count them. */
  method MergeSubset(dsu: DisjointSetUnion, edge: seq<Pair>, s: nat) returns (bitCnt: nat)
    requires dsu.Valid() && EdgesFit(edge, dsu.size)
    modifies dsu, dsu.father
    ensures dsu.Valid() && dsu.father == old(dsu.father)
    ensures dsu.part == Merged(edge, |edge|, s, Discrete(dsu.size))
    ensures bitCnt == Ones(s, |edge|)
  {
    dsu.Init();
    bitCnt := 0;
    for i := 0 to |edge|
      invariant dsu.Valid() && dsu.father == old(dsu.father)
      invariant dsu.part == Merged(edge, i, s, Discrete(dsu.size))
      invariant bitCnt == Ones(s, i)
    {
      if Bit(s, i) {
        bitCnt := bitCnt + 1;
        dsu.Merge(edge[i].0, edge[i].1);
      }
    }
  }

  /** A single vertex is connected, with no edge. */
  lemma {:induction false} SingleVertex()
    ensures |ConnectedGraphs(1, false, GraphCount(1))| == 1 && |ConnectedGraphs(1, true, GraphCount(1))| == 0
  {
    assert AllEdges(1) == [];
    NoGraphs(1, false);
    NoGraphs(1, true);
    OneMoreGraph(1, false, 0);
    OneMoreGraph(1, true, 0);
    assert IsConnected(1, false, 0) && !IsConnected(1, true, 0);
  }

  /** The pair (even, odd) stored for n vertices: the numbers of connected graphs. */
  method CountConnected(n: nat) returns (even: int, odd: int)
    requires n > 0
    ensures even == |ConnectedGraphs(n, false, GraphCount(n))| && odd == |ConnectedGraphs(n, true, GraphCount(n))|
    ensures even - odd == Mu(n)
  {
    hide Bit, Merged, IsConnected, ConnectedGraphs, Mu, Pow2;
    even, odd := 0, 0;
    if n == 1 {
      SingleVertex();
      MuOfOne();
      return 1, 0;
    }
    NoGraphs(n, false);
    NoGraphs(n, true);
    var dsu := new DisjointSetUnion(n);
    var edge := ListEdges(n);
    var m := |edge|;
    for s := 0 to Pow2(m)
      invariant dsu.Valid() && dsu.size == n && fresh(dsu) && fresh(dsu.father)
      invariant even == |ConnectedGraphs(n, false, s)| && odd == |ConnectedGraphs(n, true, s)|
      invariant even - odd == Total(edge, m, Discrete(n), s)
    {
      var bitCnt := MergeSubset(dsu, edge, s);
      OneMoreGraph(n, false, s);
      OneMoreGraph(n, true, s);
      MergedDecides(n, s);
      if dsu.setSize == 1 {
        if bitCnt % 2 == 1 {
          odd := odd + 1;
        } else {
          even := even + 1;
        }
      }
    }
    TotalIsSigned(edge, m, Discrete(n));
    ConnectedCount(n);
  }

  ghost predicate SlotsOk(val: seq<int>, n: nat)
    requires 1 <= n && 2 * n <= |val|
  {
    && val[2 * n - 2] == |ConnectedGraphs(n, false, GraphCount(n))|
    && val[2 * n - 1] == |ConnectedGraphs(n, true, GraphCount(n))|
  }

  /** in_exclusion_val: slots 2n-2 and 2n-1 hold the numbers of connected graphs on n
      vertices with an even and with an odd number of edges. */
  method FillCounts(optimizeNum: nat) returns (val: seq<int>)
    ensures |val| == 2 * optimizeNum
    ensures forall n :: 1 <= n <= optimizeNum ==> SlotsOk(val, n)
    ensures forall n :: 1 <= n <= optimizeNum ==> val[2 * n - 2] - val[2 * n - 1] == Mu(n)
  {
    hide ConnectedGraphs, GraphCount, Mu;
    val := [];
    for n := 1 to optimizeNum + 1
      invariant |val| == 2 * (n - 1)
      invariant forall k :: 1 <= k < n ==> SlotsOk(val, k)
      invariant forall k :: 1 <= k < n ==> val[2 * k - 2] - val[2 * k - 1] == Mu(k)
    {
      var even, odd := CountConnected(n);
      ghost var was := val;
      val := val + [even, odd];
      forall k | 1 <= k <= n ensures SlotsOk(val, k) {
        if k < n {
          assert SlotsOk(was, k);
        }
      }
    }
  }
}
