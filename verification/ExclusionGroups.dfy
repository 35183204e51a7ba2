/** get_in_exclusion_optimize_group: enumerating the set partitions with their signed weights. */
module ExclusionGroups {
  import opened Arithmetic
  import opened SetPartitions
  import opened SignedGraphs
  import opened InclusionExclusion
  import opened ConnectedCounts

  /** One finished assignment of elements to blocks. */
  type Leaf = (seq<nat>, nat)

  ghost function Leaves(num: nat, ids: seq<nat>, cnt: nat): seq<Leaf>
    requires |ids| <= num
    decreases num - |ids|, cnt + 1
  {
    if |ids| == num then
      [(ids, cnt)]
    else
      Leaves(num, ids + [cnt], cnt + 1) + JoinLeaves(num, ids, cnt, cnt)
  }

  ghost function JoinLeaves(num: nat, ids: seq<nat>, cnt: nat, i: nat): seq<Leaf>
    requires |ids| < num && i <= cnt
    decreases num - |ids|, i
  {
    if i == 0 then [] else JoinLeaves(num, ids, cnt, i - 1) + Leaves(num, ids + [i - 1], cnt)
  }

  /** The elements of block b, ascending. */
  ghost function Block(ids: seq<nat>, b: nat): (r: seq<nat>)
    ensures forall j :: 0 <= j < |r| ==> r[j] < |ids| && ids[r[j]] == b
    ensures forall j: nat :: j < |ids| && ids[j] == b ==> j in r
    ensures |r| == BlockSize(ids, b)
  {
    if |ids| == 0 then
      []
    else
      var n := |ids| - 1;
      Block(ids[..n], b) + if ids[n] == b then [n] else []
  }

  ghost function Blocks(ids: seq<nat>, k: nat): (r: seq<seq<nat>>)
    ensures |r| == k
  {
    seq(k, b requires 0 <= b < k => Block(ids, b))
  }

  ghost function Value(ids: seq<nat>, k: nat): int {
    if k == 0 then 1 else Times(Value(ids, k - 1), Weight(BlockSize(ids, k - 1)))
  }

  // ----- each set partition once -----

  /** i and j share a block in one labelling exactly when they do in the other. */
  ghost predicate SameKernel(a: seq<nat>, b: seq<nat>) {
    |a| == |b| && forall i, j :: 0 <= i < |a| && 0 <= j < |a| ==> (a[i] == a[j] <==> b[i] == b[j])
  }

  /** Labels appear in order: a fresh label is the number of blocks so far. */
  ghost predicate FirstUse(ids: seq<nat>, cnt: nat) {
    if |ids| == 0 then
      cnt == 0
    else
      var n := |ids| - 1;
      if ids[n] in ids[..n] then FirstUse(ids[..n], cnt) else cnt == ids[n] + 1 && FirstUse(ids[..n], cnt - 1)
  }

  lemma {:induction false} FirstUseGrows(ids: seq<nat>, cnt: nat)
    requires FirstUse(ids, cnt)
    ensures Growth(ids, cnt)
  {
    if |ids| > 0 {
      var n := |ids| - 1;
      assert ids == ids[..n] + [ids[n]];
      if ids[n] in ids[..n] {
        FirstUseGrows(ids[..n], cnt);
        GrowthJoins(ids[..n], cnt, ids[n]);
      } else {
        FirstUseGrows(ids[..n], cnt - 1);
        GrowthOpens(ids[..n], cnt - 1);
      }
    }
  }

  lemma {:induction false} FirstUseOpens(ids: seq<nat>, cnt: nat)
    requires FirstUse(ids, cnt)
    ensures FirstUse(ids + [cnt], cnt + 1)
    ensures forall i: nat :: i < cnt ==> FirstUse(ids + [i], cnt)
  {
    FirstUseGrows(ids, cnt);
    assert cnt !in ids;
    forall i: nat ensures (ids + [i])[..|ids|] == ids && (ids + [i])[|ids|] == i {
    }
  }

  /** The enumeration reaches exactly the labellings in order of first use. */
  lemma {:induction false} LeavesExact(num: nat, ids: seq<nat>, cnt: nat, leaf: Leaf)
    requires |ids| <= num && FirstUse(ids, cnt)
    ensures leaf in Leaves(num, ids, cnt) <==>
      |leaf.0| == num && ids <= leaf.0 && FirstUse(leaf.0, leaf.1)
    decreases num - |ids|, cnt + 1
  {
    hide FirstUse;
    if |ids| == num {
      if leaf.0 == ids && FirstUse(leaf.0, leaf.1) {
        FirstUseUnique(ids, cnt, leaf.1);
      }
    } else {
      FirstUseOpens(ids, cnt);
      LeavesExact(num, ids + [cnt], cnt + 1, leaf);
      JoinLeavesExact(num, ids, cnt, cnt, leaf);
      if |leaf.0| == num && ids <= leaf.0 && FirstUse(leaf.0, leaf.1) {
        NextLabel(ids, cnt, leaf.0, leaf.1);
        assert ids + [leaf.0[|ids|]] <= leaf.0;
      }
    }
  }

  lemma {:induction false} JoinLeavesExact(num: nat, ids: seq<nat>, cnt: nat, i: nat, leaf: Leaf)
    requires |ids| < num && i <= cnt && FirstUse(ids, cnt)
    ensures leaf in JoinLeaves(num, ids, cnt, i) <==>
      |leaf.0| == num && ids <= leaf.0 && leaf.0[|ids|] < i && FirstUse(leaf.0, leaf.1)
    decreases num - |ids|, i
  {
    hide FirstUse;
    if i > 0 {
      FirstUseOpens(ids, cnt);
      JoinLeavesExact(num, ids, cnt, i - 1, leaf);
      LeavesExact(num, ids + [i - 1], cnt, leaf);
      if |leaf.0| == num && ids <= leaf.0 && leaf.0[|ids|] == i - 1 {
        assert ids + [i - 1] <= leaf.0;
      }
    }
  }

  lemma {:induction false} FirstUseUnique(ids: seq<nat>, a: nat, b: nat)
    requires FirstUse(ids, a) && FirstUse(ids, b)
    ensures a == b
  {
    if |ids| > 0 {
      var n := |ids| - 1;
      if ids[n] in ids[..n] {
        FirstUseUnique(ids[..n], a, b);
      }
    }
  }

  lemma {:induction false} FirstUsePrefix(ids: seq<nat>, cnt: nat, k: nat) returns (c: nat)
    requires FirstUse(ids, cnt) && k <= |ids|
    ensures FirstUse(ids[..k], c)
    decreases |ids|
  {
    if k == |ids| {
      assert ids[..k] == ids;
      c := cnt;
    } else {
      var n := |ids| - 1;
      c := FirstUsePrefix(ids[..n], if ids[n] in ids[..n] then cnt else cnt - 1, k);
      assert ids[..n][..k] == ids[..k];
    }
  }

  lemma {:induction false} NextLabel(ids: seq<nat>, cnt: nat, t: seq<nat>, c: nat)
    requires FirstUse(ids, cnt) && FirstUse(t, c) && ids <= t && |ids| < |t|
    ensures t[|ids|] <= cnt
  {
    var k := |ids|;
    var d := FirstUsePrefix(t, c, k + 1);
    var u := t[..k + 1];
    assert u[..k] == ids && u[k] == t[k];
    FirstUseGrows(ids, cnt);
    if u[k] !in ids {
      FirstUseUnique(ids, cnt, d - 1);
    }
  }

  /** The last element opens a block in both labellings or in neither. */
  lemma {:induction false} KernelShrinks(a: seq<nat>, b: seq<nat>)
    requires SameKernel(a, b) && |a| > 0
    ensures SameKernel(a[..|a| - 1], b[..|a| - 1])
    ensures a[|a| - 1] in a[..|a| - 1] <==> b[|a| - 1] in b[..|a| - 1]
  {
    var n := |a| - 1;
    if j :| 0 <= j < n && a[j] == a[n] {
      assert b[..n][j] == b[j] == b[n];
    }
    if j :| 0 <= j < n && b[j] == b[n] {
      assert a[..n][j] == a[j] == a[n];
    }
  }

  /** Two enumerated labellings with the same blocks are the same. */
  lemma {:induction false} KernelDecides(a: seq<nat>, ca: nat, b: seq<nat>, cb: nat)
    requires FirstUse(a, ca) && FirstUse(b, cb) && SameKernel(a, b)
    ensures a == b && ca == cb
  {
    if |a| > 0 {
      var n := |a| - 1;
      var joins := a[n] in a[..n];
      KernelShrinks(a, b);
      KernelDecides(a[..n], if joins then ca else ca - 1, b[..n], if joins then cb else cb - 1);
      assert a == a[..n] + [a[n]] && b == b[..n] + [b[n]];
      if joins {
        var j :| 0 <= j < n && a[j] == a[n];
        assert b[j] == b[n];
      }
    }
  }

  lemma {:induction false} KernelGrows(l: seq<nat>, rest: seq<nat>, name: nat)
    requires |l| > 0 && SameKernel(rest, l[..|l| - 1])
    requires forall i :: 0 <= i < |l| - 1 ==> (l[i] == l[|l| - 1] <==> rest[i] == name)
    ensures SameKernel(rest + [name], l)
  {
    var n, ids := |l| - 1, rest + [name];
    forall i, j | 0 <= i < |l| && 0 <= j < |l| ensures ids[i] == ids[j] <==> l[i] == l[j] {
      if i < n && j < n {
        assert l[..n][i] == l[..n][j] <==> rest[i] == rest[j];
      }
    }
  }

  /** Every way to split [0, num) into blocks is enumerated. */
  lemma {:induction false} KernelReached(l: seq<nat>) returns (ids: seq<nat>, cnt: nat)
    ensures FirstUse(ids, cnt) && SameKernel(ids, l)
  {
    if |l| == 0 {
      return [], 0;
    }
    hide FirstUse;
    var n := |l| - 1;
    var rest, c := KernelReached(l[..n]);
    FirstUseOpens(rest, c);
    FirstUseGrows(rest, c);
    if j :| 0 <= j < n && l[j] == l[n] {
      ids, cnt := rest + [rest[j]], c;
      forall i | 0 <= i < n ensures l[i] == l[n] <==> rest[i] == rest[j] {
        assert l[..n][i] == l[..n][j] <==> rest[i] == rest[j];
      }
      KernelGrows(l, rest, rest[j]);
    } else {
      ids, cnt := rest + [c], c + 1;
      KernelGrows(l, rest, c);
    }
  }

  // ----- the sum over the list -----

  ghost function ListSum(ls: seq<Leaf>, f: Weighing): int {
    if |ls| == 0 then 0 else ListSum(ls[..|ls| - 1], f) + f(ls[|ls| - 1].0, ls[|ls| - 1].1)
  }

  lemma {:induction false} ListSumConcat(a: seq<Leaf>, b: seq<Leaf>, f: Weighing)
    ensures ListSum(a + b, f) == ListSum(a, f) + ListSum(b, f)
  {
    if |b| == 0 {
      assert a + b == a;
    } else {
      var n := |b| - 1;
      ListSumConcat(a, b[..n], f);
      assert (a + b)[..|a| + n] == a + b[..n];
    }
  }

  lemma {:induction false} ListSumIsLeafSum(num: nat, ids: seq<nat>, cnt: nat, f: Weighing)
    requires |ids| <= num
    ensures ListSum(Leaves(num, ids, cnt), f) == LeafSum(num, ids, cnt, f)
    decreases num - |ids|, cnt + 1
  {
    if |ids| == num {
      assert Leaves(num, ids, cnt)[..0] == [];
    } else {
      ListSumIsLeafSum(num, ids + [cnt], cnt + 1, f);
      JoinSumIsListSum(num, ids, cnt, cnt, f);
      ListSumConcat(Leaves(num, ids + [cnt], cnt + 1), JoinLeaves(num, ids, cnt, cnt), f);
    }
  }

  lemma {:induction false} JoinSumIsListSum(num: nat, ids: seq<nat>, cnt: nat, i: nat, f: Weighing)
    requires |ids| < num && i <= cnt
    ensures ListSum(JoinLeaves(num, ids, cnt, i), f) == JoinSum(num, ids, cnt, i, f)
    decreases num - |ids|, i
  {
    if i > 0 {
      JoinSumIsListSum(num, ids, cnt, i - 1, f);
      ListSumIsLeafSum(num, ids + [i - 1], cnt, f);
      ListSumConcat(JoinLeaves(num, ids, cnt, i - 1), Leaves(num, ids + [i - 1], cnt), f);
    }
  }

  /** Elements common to the sets listed in a block. */
  ghost function Common(s: Family, block: seq<nat>): set<nat>
    requires forall j :: 0 <= j < |block| ==> block[j] < |s|
  {
    set y | y in Everything(s) && forall j :: 0 <= j < |block| ==> y in s[block[j]]
  }

  ghost predicate GroupFits(group: seq<seq<nat>>, n: nat) {
    forall b, j :: 0 <= b < |group| && 0 <= j < |group[b]| ==> group[b][j] < n
  }

  /** val times the sizes of the common sets of the first k blocks. */
  ghost function GroupProduct(s: Family, val: int, group: seq<seq<nat>>, k: nat): int
    requires k <= |group| && GroupFits(group, |s|)
  {
    if k == 0 then val else Times(GroupProduct(s, val, group, k - 1), |Common(s, group[k - 1])|)
  }

  lemma {:induction false} CommonIsMeet(s: Family, ids: seq<nat>, b: nat)
    requires |ids| == |s|
    ensures Common(s, Block(ids, b)) == Meet(s, ids, b)
  {
    var block := Block(ids, b);
    forall y | y in Everything(s)
      ensures InMeet(s, ids, b, y) <==> forall j :: 0 <= j < |block| ==> y in s[block[j]]
    {
      if forall j :: 0 <= j < |block| ==> y in s[block[j]] {
        forall k: nat | k < |s| && ids[k] == b ensures y in s[k] {
          assert k in block;
        }
      }
    }
  }

  lemma {:induction false} BlocksFit(ids: seq<nat>, k: nat)
    ensures GroupFits(Blocks(ids, k), |ids|)
  {
    forall b, j | 0 <= b < k && 0 <= j < |Blocks(ids, k)[b]| ensures Blocks(ids, k)[b][j] < |ids| {
    }
  }

  lemma {:induction false} ValueSplits(s: Family, val: int, ids: seq<nat>, cnt: nat, k: nat)
    requires |ids| == |s| && k <= cnt && val == Value(ids, cnt)
    ensures GroupFits(Blocks(ids, cnt), |s|)
    ensures GroupProduct(s, val, Blocks(ids, cnt), k) == Times(val, Sizes(s, ids, k))
    decreases k
  {
    BlocksFit(ids, cnt);
    if k > 0 {
      ValueSplits(s, val, ids, cnt, k - 1);
      CommonIsMeet(s, ids, k - 1);
      TimesRegroups(val, Sizes(s, ids, k - 1), |Meet(s, ids, k - 1)|);
    }
  }

  ghost function Sizes(s: Family, ids: seq<nat>, k: nat): int
    requires |ids| == |s|
  {
    if k == 0 then 1 else Times(Sizes(s, ids, k - 1), |Meet(s, ids, k - 1)|)
  }

  lemma {:induction false} FourFactors(a: int, b: int, c: int, d: int)
    ensures Times(Times(a, b), Times(c, d)) == Times(Times(b, d), Times(a, c))
  {
    calc {
      Times(Times(a, b), Times(c, d));
      (a * b) * (c * d);
      (b * d) * (a * c);
    }
  }

  lemma {:induction false} TermSplits(s: Family, ids: seq<nat>, k: nat)
    requires |ids| == |s|
    ensures Times(Value(ids, k), Sizes(s, ids, k)) == Term(s, ids, k)
  {
    if k > 0 {
      TermSplits(s, ids, k - 1);
      FourFactors(Value(ids, k - 1), Weight(BlockSize(ids, k - 1)), Sizes(s, ids, k - 1), |Meet(s, ids, k - 1)|);
    }
  }

  // ----- the procedure -----

  ghost function GroupsOf(ls: seq<Leaf>): (r: seq<seq<seq<nat>>>)
    ensures |r| == |ls|
  {
    seq(|ls|, k requires 0 <= k < |ls| => Blocks(ls[k].0, ls[k].1))
  }

  ghost function ValuesOf(ls: seq<Leaf>): (r: seq<int>)
    ensures |r| == |ls|
  {
    seq(|ls|, k requires 0 <= k < |ls| => Value(ls[k].0, ls[k].1))
  }

  lemma {:induction false} OfConcat(a: seq<Leaf>, b: seq<Leaf>)
    ensures GroupsOf(a + b) == GroupsOf(a) + GroupsOf(b)
    ensures ValuesOf(a + b) == ValuesOf(a) + ValuesOf(b)
  {
  }

  /** Slots 2n-2 and 2n-1 hold even and odd counts for n. */
  ghost predicate GoodCounts(counts: seq<int>, num: nat) {
    && |counts| == 2 * num
    && forall n :: 1 <= n <= num ==> counts[2 * n - 2] - counts[2 * n - 1] == Mu(n)
  }

  lemma {:induction false} SizeBound(ids: seq<nat>, b: nat)
    ensures BlockSize(ids, b) <= |ids|
  {
    if |ids| > 0 {
      SizeBound(ids[..|ids| - 1], b);
    }
  }

  method CountSizes(ids: seq<nat>, cnt: nat) returns (size: seq<nat>)
    requires Growth(ids, cnt)
    ensures |size| == cnt
    ensures forall b :: 0 <= b < cnt ==> size[b] == BlockSize(ids, b) && 1 <= size[b] <= |ids|
  {
    size := seq(cnt, _ => 0);
    for i := 0 to |ids|
      invariant |size| == cnt
      invariant forall b :: 0 <= b < cnt ==> size[b] == BlockSize(ids[..i], b)
    {
      assert ids[..i + 1][..i] == ids[..i];
      size := size[ids[i] := size[ids[i]] + 1];
    }
    assert ids[..|ids|] == ids;
    forall b | 0 <= b < cnt ensures 1 <= size[b] <= |ids| {
      assert b in ids;
      BlockNonEmpty(ids, b);
      SizeBound(ids, b);
    }
  }

  /** (a0 - a1)(b0 - b1), kept as an even and an odd part. */
  lemma {:induction false} SignedProduct(a0: int, a1: int, b0: int, b1: int)
    ensures (a0 * b0 + a1 * b1) - (a0 * b1 + a1 * b0) == Times(a0 - a1, b0 - b1)
  {
    calc {
      Times(a0 - a1, b0 - b1);
      (a0 - a1) * (b0 - b1);
      (a0 - a1) * b0 - (a0 - a1) * b1;
      (a0 * b0 - a1 * b0) - (a0 * b1 - a1 * b1);
    }
  }

  method WeighLeaf(ids: seq<nat>, cnt: nat, counts: seq<int>) returns (val: int)
    requires Growth(ids, cnt) && cnt > 0 && GoodCounts(counts, |ids|)
    ensures val == Value(ids, cnt)
  {
    var size := CountSizes(ids, cnt);
    var val0, val1 := counts[size[0] * 2 - 2], counts[size[0] * 2 - 1];
    assert Value(ids, 1) == Times(1, Weight(size[0])) == Weight(size[0]);
    for i := 1 to cnt
      invariant val0 - val1 == Value(ids, i)
    {
      var even, odd := counts[size[i] * 2 - 2], counts[size[i] * 2 - 1];
      SignedProduct(val0, val1, even, odd);
      val0, val1 := val0 * even + val1 * odd, val0 * odd + val1 * even;
    }
    val := val0 - val1;
  }

  method CollectGroup(ids: seq<nat>, cnt: nat) returns (group: seq<seq<nat>>)
    ensures group == Blocks(ids, cnt)
  {
    group := [];
    for i := 0 to cnt
      invariant |group| == i
      invariant forall b :: 0 <= b < i ==> group[b] == Block(ids, b)
    {
      var cur: seq<nat> := [];
      for j := 0 to |ids|
        invariant cur == Block(ids[..j], i)
      {
        assert ids[..j + 1][..j] == ids[..j];
        if ids[j] == i {
          cur := cur + [j];
        }
      }
      assert ids[..|ids|] == ids;
      group := group + [cur];
    }
  }

  method EmitLeaf(ids: seq<nat>, cnt: nat, counts: seq<int>) returns (group: seq<seq<nat>>, val: int)
    requires |ids| > 0 && FirstUse(ids, cnt) && GoodCounts(counts, |ids|)
    ensures [group] == GroupsOf([(ids, cnt)]) && [val] == ValuesOf([(ids, cnt)])
  {
    FirstUseGrows(ids, cnt);
    assert ids[0] < cnt;
    val := WeighLeaf(ids, cnt, counts);
    group := CollectGroup(ids, cnt);
  }

  lemma {:induction false} JoinStep(num: nat, ids: seq<nat>, cnt: nat, i: nat, first: seq<Leaf>,
                                    groups0: seq<seq<seq<nat>>>, vals0: seq<int>)
    requires |ids| < num && i < cnt
    ensures groups0 + GroupsOf(first + JoinLeaves(num, ids, cnt, i)) + GroupsOf(Leaves(num, ids + [i], cnt))
      == groups0 + GroupsOf(first + JoinLeaves(num, ids, cnt, i + 1))
    ensures vals0 + ValuesOf(first + JoinLeaves(num, ids, cnt, i)) + ValuesOf(Leaves(num, ids + [i], cnt))
      == vals0 + ValuesOf(first + JoinLeaves(num, ids, cnt, i + 1))
  {
    var sofar, more := first + JoinLeaves(num, ids, cnt, i), Leaves(num, ids + [i], cnt);
    OfConcat(sofar, more);
    assert sofar + more == first + JoinLeaves(num, ids, cnt, i + 1);
  }

  method GetInExclusionOptimizeGroup(num: nat, depth: nat, id: array<nat>, idCnt: nat, counts: seq<int>,
                                     groups0: seq<seq<seq<nat>>>, vals0: seq<int>)
    returns (groups: seq<seq<seq<nat>>>, vals: seq<int>)
    requires id.Length == num > 0 && depth <= num && GoodCounts(counts, num)
    requires FirstUse(id[..depth], idCnt)
    modifies id
    ensures id[..depth] == old(id[..depth])
    ensures groups == groups0 + GroupsOf(Leaves(num, old(id[..depth]), idCnt))
    ensures vals == vals0 + ValuesOf(Leaves(num, old(id[..depth]), idCnt))
    decreases num - depth
  {
    hide FirstUse, GoodCounts, GroupsOf, ValuesOf, Blocks, Value;
    ghost var ids := id[..depth];
    if depth == num {
      assert id[..] == ids;
      var group, val := EmitLeaf(id[..], idCnt, counts);
      return groups0 + [group], vals0 + [val];
    }
    FirstUseOpens(ids, idCnt);
    id[depth] := idCnt;
    assert id[..depth + 1] == ids + [idCnt];
    groups, vals := GetInExclusionOptimizeGroup(num, depth + 1, id, idCnt + 1, counts, groups0, vals0);
    ghost var first := Leaves(num, ids + [idCnt], idCnt + 1);
    assert id[..depth] == id[..depth + 1][..depth] == ids;
    assert first + JoinLeaves(num, ids, idCnt, 0) == first;
    for i := 0 to idCnt
      invariant id[..depth] == ids
      invariant groups == groups0 + GroupsOf(first + JoinLeaves(num, ids, idCnt, i))
      invariant vals == vals0 + ValuesOf(first + JoinLeaves(num, ids, idCnt, i))
    {
      id[depth] := i;
      assert id[..depth + 1] == ids + [i];
      groups, vals := GetInExclusionOptimizeGroup(num, depth + 1, id, idCnt, counts, groups, vals);
      JoinStep(num, ids, idCnt, i, first, groups0, vals0);
      assert id[..depth] == id[..depth + 1][..depth] == ids;
    }
  }

  /** What the interpreter adds up for one family of candidate sets. */
  ghost function GroupSum(s: Family, groups: seq<seq<seq<nat>>>, vals: seq<int>, k: nat): int
    requires |groups| == |vals| && k <= |vals|
    requires forall r :: 0 <= r < |groups| ==> GroupFits(groups[r], |s|)
  {
    if k == 0 then
      0
    else
      GroupSum(s, groups, vals, k - 1) + GroupProduct(s, vals[k - 1], groups[k - 1], |groups[k - 1]|)
  }

  /** The stored tables for num sets. */
  ghost predicate GoodTables(num: nat, groups: seq<seq<seq<nat>>>, vals: seq<int>) {
    groups == GroupsOf(Leaves(num, [], 0)) && vals == ValuesOf(Leaves(num, [], 0))
  }

  method InitInExclusionOptimize(num: nat) returns (groups: seq<seq<seq<nat>>>, vals: seq<int>)
    requires num >= 1
    ensures GoodTables(num, groups, vals)
  {
    var id := new nat[num](_ => 0);
    var counts := FillCounts(num);
    assert id[..0] == [];
    groups, vals := GetInExclusionOptimizeGroup(num, 0, id, 0, counts, [], []);
  }

  lemma {:induction false} LeafShape(num: nat, k: nat)
    requires k < |Leaves(num, [], 0)|
    ensures |Leaves(num, [], 0)[k].0| == num
    ensures GroupFits(Blocks(Leaves(num, [], 0)[k].0, Leaves(num, [], 0)[k].1), num)
  {
    var leaf := Leaves(num, [], 0)[k];
    LeavesExact(num, [], 0, leaf);
    BlocksFit(leaf.0, leaf.1);
  }

  lemma {:induction false} TablesFit(num: nat, groups: seq<seq<seq<nat>>>, vals: seq<int>)
    requires GoodTables(num, groups, vals)
    ensures |groups| == |vals|
    ensures forall r :: 0 <= r < |groups| ==> GroupFits(groups[r], num)
  {
    forall r | 0 <= r < |groups| ensures GroupFits(groups[r], num) {
      LeafShape(num, r);
    }
  }

  lemma {:induction false} LeafBlocks(num: nat, k: nat)
    requires k < |Leaves(num, [], 0)|
    ensures forall b :: 0 <= b < Leaves(num, [], 0)[k].1 ==> |Block(Leaves(num, [], 0)[k].0, b)| > 0
  {
    var leaf := Leaves(num, [], 0)[k];
    LeavesExact(num, [], 0, leaf);
    FirstUseGrows(leaf.0, leaf.1);
    forall b: nat | b < leaf.1 ensures |Block(leaf.0, b)| > 0 {
      BlockNonEmpty(leaf.0, b);
    }
  }

  /** No stored group has an empty block. */
  lemma {:induction false} TablesNonEmpty(num: nat, groups: seq<seq<seq<nat>>>, vals: seq<int>, r: nat)
    requires GoodTables(num, groups, vals) && r < |groups|
    ensures forall b :: 0 <= b < |groups[r]| ==> |groups[r][b]| > 0
  {
    LeafBlocks(num, r);
  }

  lemma {:induction false} GroupSumIsListSum(s: Family, groups: seq<seq<seq<nat>>>, vals: seq<int>, k: nat)
    requires GoodTables(|s|, groups, vals) && k <= |vals|
    requires |groups| == |vals| && forall r :: 0 <= r < |groups| ==> GroupFits(groups[r], |s|)
    ensures GroupSum(s, groups, vals, k) == ListSum(Leaves(|s|, [], 0)[..k], Terms(s))
    decreases k
  {
    if k > 0 {
      var ls := Leaves(|s|, [], 0);
      GroupSumIsListSum(s, groups, vals, k - 1);
      assert ls[..k][..k - 1] == ls[..k - 1];
      LeafShape(|s|, k - 1);
      ValueSplits(s, vals[k - 1], ls[k - 1].0, ls[k - 1].1, ls[k - 1].1);
      TermSplits(s, ls[k - 1].0, ls[k - 1].1);
    }
  }

  /** The stored tables turn sizes of common sets into the number of injective tuples. */
  lemma {:induction false} TablesCountInjective(s: Family, groups: seq<seq<seq<nat>>>, vals: seq<int>)
    requires GoodTables(|s|, groups, vals)
    ensures |groups| == |vals|
    ensures forall r :: 0 <= r < |groups| ==> GroupFits(groups[r], |s|)
    ensures GroupSum(s, groups, vals, |vals|) == |InjectiveChoices(s)|
  {
    TablesFit(|s|, groups, vals);
    GroupSumIsListSum(s, groups, vals, |vals|);
    var ls := Leaves(|s|, [], 0);
    assert ls[..|vals|] == ls;
    ListSumIsLeafSum(|s|, [], 0, Terms(s));
    PartitionsCountInjective(s);
  }
}
