/** Counting injective tuples by inclusion-exclusion over set partitions. */
module InclusionExclusion {
  import opened Arithmetic
  import opened Counting
  import opened SetPartitions
  import opened SignedGraphs

  type Family = seq<set<nat>>

  // ----- injective choices -----

  /** All ways to choose one element of each set. */
  ghost function Choices(s: Family): (r: set<seq<nat>>)
    ensures forall t :: t in r <==> IsChoice(t, s)
  {
    if |s| == 0 then
      {[]}
    else
      var n := |s| - 1;
      var shorter, last := Choices(s[..n]), s[n];
      var r := set t, x | t in shorter && x in last :: t + [x];
      assert forall t :: IsChoice(t, s) ==> t in r by {
        forall t | IsChoice(t, s) ensures t in r {
          assert t == t[..n] + [t[n]];
          assert IsChoice(t[..n], s[..n]);
        }
      }
      r
  }

  ghost predicate IsChoice(t: seq<nat>, s: Family) {
    |t| == |s| && forall i :: 0 <= i < |t| ==> t[i] in s[i]
  }

  ghost function InjectiveChoices(s: Family): (r: set<seq<nat>>)
    ensures forall t :: t in r <==> IsChoice(t, s) && Injective(t)
  {
    set t | t in Choices(s) && Injective(t)
  }

  /** The family in which set j also has to meet x. */
  ghost function Shrink(s: Family, j: nat, x: set<nat>): (r: Family)
    requires j < |s|
    ensures |r| == |s|
  {
    s[j := s[j] * x]
  }

  /** Pairs whose second part avoids the first k entries of the first part. */
  ghost function Avoiding(s: Family, x: set<nat>, k: nat): set<(seq<nat>, nat)> {
    set e | e in Product(InjectiveChoices(s), x) && k <= |e.0| && e.1 !in e.0[..k]
  }

  ghost function Hitting(s: Family, x: set<nat>, k: nat): set<(seq<nat>, nat)> {
    set e | e in Product(InjectiveChoices(s), x) && k < |e.0| && e.1 == e.0[k]
  }

  lemma {:induction false} HittingSize(s: Family, x: set<nat>, k: nat)
    requires k < |s|
    ensures |Hitting(s, x, k)| == |InjectiveChoices(Shrink(s, k, x))|
  {
    var pair := (t: seq<nat>) => if k < |t| then (t, t[k]) else (t, 0);
    var small := InjectiveChoices(Shrink(s, k, x));
    ImageSize(pair, small);
    forall e ensures e in Image(pair, small) <==> e in Hitting(s, x, k) {
      if e in Hitting(s, x, k) {
        assert IsChoice(e.0, Shrink(s, k, x));
        assert pair(e.0) == e;
      }
      if e in Image(pair, small) {
        var t :| t in small && pair(t) == e;
        assert t[k] in Shrink(s, k, x)[k];
        assert IsChoice(t, s) by {
          forall i | 0 <= i < |t| ensures t[i] in s[i] {
            assert t[i] in Shrink(s, k, x)[i];
          }
        }
      }
    }
    assert Image(pair, small) == Hitting(s, x, k);
  }

  lemma {:induction false} AvoidOneMore(s: Family, x: set<nat>, k: nat)
    requires k < |s|
    ensures |Avoiding(s, x, k + 1)| == |Avoiding(s, x, k)| - |Hitting(s, x, k)|
  {
    var a, b, h := Avoiding(s, x, k), Avoiding(s, x, k + 1), Hitting(s, x, k);
    forall e ensures e in a <==> e in b || e in h {
      if e in a || e in b || e in h {
        assert |e.0| == |s|;
        assert e.0[..k + 1] == e.0[..k] + [e.0[k]];
      }
    }
    forall e | e in b ensures e !in h {
      assert e.0[..k + 1] == e.0[..k] + [e.0[k]];
    }
    assert a == b + h && b !! h;
  }

  ghost function ShrunkCounts(s: Family, x: set<nat>, k: nat): int
    requires k <= |s|
  {
    if k == 0 then 0 else ShrunkCounts(s, x, k - 1) + |InjectiveChoices(Shrink(s, k - 1, x))|
  }

  lemma {:induction false} AvoidNothing(s: Family, x: set<nat>)
    ensures |Avoiding(s, x, 0)| == Times(|x|, |InjectiveChoices(s)|)
  {
    ProductSize(InjectiveChoices(s), x);
    assert Avoiding(s, x, 0) == Product(InjectiveChoices(s), x);
  }

  lemma {:induction false} AvoidStep(s: Family, x: set<nat>, k: nat)
    requires 0 < k <= |s|
    ensures |Avoiding(s, x, k)| == |Avoiding(s, x, k - 1)| - (ShrunkCounts(s, x, k) - ShrunkCounts(s, x, k - 1))
  {
    hide Avoiding, Hitting, InjectiveChoices, Shrink;
    AvoidOneMore(s, x, k - 1);
    HittingSize(s, x, k - 1);
  }

  lemma {:induction false} AvoidingSize(s: Family, x: set<nat>, k: nat)
    requires k <= |s|
    ensures |Avoiding(s, x, k)| == Times(|x|, |InjectiveChoices(s)|) - ShrunkCounts(s, x, k)
  {
    hide Avoiding, InjectiveChoices, Times;
    if k == 0 {
      AvoidNothing(s, x);
    } else {
      AvoidingSize(s, x, k - 1);
      AvoidStep(s, x, k);
    }
  }

  /** Extending injective choices by one more set. */
  lemma {:induction false} OneMoreSet(s: Family, x: set<nat>)
    ensures |InjectiveChoices(s + [x])|
      == Times(|x|, |InjectiveChoices(s)|) - ShrunkCounts(s, x, |s|)
  {
    AvoidingSize(s, x, |s|);
    var join := (e: (seq<nat>, nat)) => e.0 + [e.1];
    var pairs := Avoiding(s, x, |s|);
    forall e, d | e in pairs && d in pairs && join(e) == join(d) ensures e == d {
      assert join(e)[..|s|] == e.0 && join(d)[..|s|] == d.0;
      assert join(e)[|s|] == e.1 && join(d)[|s|] == d.1;
    }
    ImageSize(join, pairs);
    forall t ensures t in Image(join, pairs) <==> t in InjectiveChoices(s + [x]) {
      JoinedChoice(s, x, t);
    }
    assert Image(join, pairs) == InjectiveChoices(s + [x]);
  }

  lemma {:induction false} JoinedChoice(s: Family, x: set<nat>, t: seq<nat>)
    ensures t in InjectiveChoices(s + [x]) <==>
      exists e :: e in Avoiding(s, x, |s|) && t == e.0 + [e.1]
  {
    if t in InjectiveChoices(s + [x]) {
      var e := (t[..|s|], t[|s|]);
      assert IsChoice(e.0, s) by {
        forall i | 0 <= i < |s| ensures e.0[i] in s[i] {
          assert t[i] in (s + [x])[i];
        }
      }
      assert e.1 in x by {
        assert t[|s|] in (s + [x])[|s|];
      }
      assert e.0[..|s|] == e.0;
      assert e in Avoiding(s, x, |s|) && t == e.0 + [e.1];
    }
    if exists e :: e in Avoiding(s, x, |s|) && t == e.0 + [e.1] {
      var e :| e in Avoiding(s, x, |s|) && t == e.0 + [e.1];
      assert e.0[..|s|] == e.0;
      assert IsChoice(t, s + [x]);
    }
  }

  // ----- the weight of one partition -----

  ghost function BlockSize(ids: seq<nat>, b: nat): nat {
    if |ids| == 0 then 0 else BlockSize(ids[..|ids| - 1], b) + if ids[|ids| - 1] == b then 1 else 0
  }

  ghost function Weight(size: nat): int {
    if size == 0 then 1 else Mu(size)
  }

  ghost function Everything(s: Family): set<nat> {
    if |s| == 0 then {} else Everything(s[..|s| - 1]) + s[|s| - 1]
  }

  lemma {:induction false} InEverything(s: Family, j: nat)
    requires j < |s|
    ensures s[j] <= Everything(s)
  {
    if j < |s| - 1 {
      InEverything(s[..|s| - 1], j);
    }
  }

  /** The intersection of the sets in block b. */
  ghost function Meet(s: Family, ids: seq<nat>, b: nat): (m: set<nat>)
    requires |ids| == |s|
    ensures forall y :: y in m ==> InMeet(s, ids, b, y)
  {
    set y | y in Everything(s) && InMeet(s, ids, b, y)
  }

  ghost predicate InMeet(s: Family, ids: seq<nat>, b: nat, y: nat)
    requires |ids| == |s|
  {
    forall j :: 0 <= j < |s| && ids[j] == b ==> y in s[j]
  }

  lemma {:induction false} MeetExact(s: Family, ids: seq<nat>, b: nat, y: nat)
    requires |ids| == |s| && b in ids
    ensures y in Meet(s, ids, b) <==> InMeet(s, ids, b, y)
  {
    var j :| 0 <= j < |ids| && ids[j] == b;
    InEverything(s, j);
  }

  ghost function Factor(s: Family, ids: seq<nat>, b: nat): int
    requires |ids| == |s|
  {
    Times(Weight(BlockSize(ids, b)), |Meet(s, ids, b)|)
  }

  ghost function Term(s: Family, ids: seq<nat>, k: nat): int
    requires |ids| == |s|
  {
    if k == 0 then 1 else Times(Factor(s, ids, k - 1), Term(s, ids, k - 1))
  }

  ghost function Terms(s: Family): Weighing {
    (ids: seq<nat>, cnt: nat) => if |ids| == |s| then Term(s, ids, cnt) else 0
  }

  // ----- opening a block -----

  lemma {:induction false} OtherFactor(s: Family, ids: seq<nat>, x: set<nat>, i: nat, b: nat)
    requires |ids| == |s| && b in ids && b != i
    ensures Factor(s + [x], ids + [i], b) == Factor(s, ids, b)
  {
    var big, bigIds := s + [x], ids + [i];
    assert bigIds[..|ids|] == ids;
    forall y ensures y in Meet(big, bigIds, b) <==> y in Meet(s, ids, b) {
      assert bigIds[|ids|] == i;
      MeetExact(s, ids, b, y);
      var j :| 0 <= j < |ids| && ids[j] == b;
      assert bigIds[j] == b;
      MeetExact(big, bigIds, b, y);
      if InMeet(s, ids, b, y) {
        assert InMeet(big, bigIds, b, y);
      }
      if InMeet(big, bigIds, b, y) {
        forall k | 0 <= k < |s| && ids[k] == b ensures y in s[k] {
          assert bigIds[k] == b && big[k] == s[k];
        }
      }
    }
    assert Meet(big, bigIds, b) == Meet(s, ids, b);
  }

  lemma {:induction false} NoBlockYet(ids: seq<nat>, b: nat)
    requires b !in ids
    ensures BlockSize(ids, b) == 0
  {
    if |ids| > 0 {
      NoBlockYet(ids[..|ids| - 1], b);
    }
  }

  lemma {:induction false} NewFactor(s: Family, ids: seq<nat>, x: set<nat>, b: nat)
    requires |ids| == |s| && b !in ids
    ensures Factor(s + [x], ids + [b], b) == |x|
  {
    var big, bigIds := s + [x], ids + [b];
    assert bigIds[..|ids|] == ids && bigIds[|ids|] == b;
    NoBlockYet(ids, b);
    forall y ensures y in Meet(big, bigIds, b) <==> y in x {
      MeetExact(big, bigIds, b, y);
      assert big[|s|] == x;
      forall j | 0 <= j < |ids| ensures bigIds[j] != b {
        assert ids[j] in ids;
      }
    }
    assert Meet(big, bigIds, b) == x;
  }

  lemma {:induction false} OpenedPrefix(s: Family, ids: seq<nat>, x: set<nat>, cnt: nat, k: nat)
    requires |ids| == |s| && Growth(ids, cnt) && k <= cnt
    ensures Term(s + [x], ids + [cnt], k) == Term(s, ids, k)
  {
    if k > 0 {
      OpenedPrefix(s, ids, x, cnt, k - 1);
      assert (k - 1) in ids;
      OtherFactor(s, ids, x, cnt, k - 1);
    }
  }

  lemma {:induction false} OpenedTerm(s: Family, ids: seq<nat>, x: set<nat>, cnt: nat)
    requires |ids| == |s| && Growth(ids, cnt)
    ensures Term(s + [x], ids + [cnt], cnt + 1) == Times(|x|, Term(s, ids, cnt))
  {
    OpenedPrefix(s, ids, x, cnt, cnt);
    assert cnt !in ids;
    NewFactor(s, ids, x, cnt);
  }

  // ----- joining a block -----

  /** The factor of block b once block i also has to meet x. */
  ghost function CutFactor(s: Family, ids: seq<nat>, x: set<nat>, i: nat, b: nat): int
    requires |ids| == |s|
  {
    if b == i then Times(Weight(BlockSize(ids, b)), |Meet(s, ids, b) * x|) else Factor(s, ids, b)
  }

  ghost function CutTerm(s: Family, ids: seq<nat>, x: set<nat>, i: nat, k: nat): int
    requires |ids| == |s|
  {
    if k == 0 then 1 else Times(CutFactor(s, ids, x, i, k - 1), CutTerm(s, ids, x, i, k - 1))
  }

  lemma {:induction false} ShrunkMeet(s: Family, ids: seq<nat>, x: set<nat>, j: nat, b: nat)
    requires |ids| == |s| && j < |s| && b in ids
    ensures Meet(Shrink(s, j, x), ids, b) == if b == ids[j] then Meet(s, ids, b) * x else Meet(s, ids, b)
  {
    var small := Shrink(s, j, x);
    var goal := if b == ids[j] then Meet(s, ids, b) * x else Meet(s, ids, b);
    forall y ensures y in Meet(small, ids, b) <==> y in goal {
      MeetExact(small, ids, b, y);
      MeetExact(s, ids, b, y);
      if InMeet(small, ids, b, y) {
        assert b == ids[j] ==> y in small[j];
        forall k | 0 <= k < |s| && ids[k] == b ensures y in s[k] {
          assert y in small[k];
        }
      }
      if y in goal {
        forall k | 0 <= k < |s| && ids[k] == b ensures y in small[k] {
          assert y in s[k];
        }
      }
    }
    assert Meet(small, ids, b) == goal;
  }

  lemma {:induction false} ShrunkIsCut(s: Family, ids: seq<nat>, x: set<nat>, j: nat, cnt: nat, k: nat)
    requires |ids| == |s| && j < |s| && Growth(ids, cnt) && k <= cnt
    ensures Term(Shrink(s, j, x), ids, k) == CutTerm(s, ids, x, ids[j], k)
    decreases k
  {
    hide Meet, Shrink;
    if k > 0 {
      ShrunkIsCut(s, ids, x, j, cnt, k - 1);
      assert (k - 1) in ids;
      ShrunkMeet(s, ids, x, j, k - 1);
    }
  }

  lemma {:induction false} JoinedMeet(s: Family, ids: seq<nat>, x: set<nat>, i: nat)
    requires |ids| == |s| && i in ids
    ensures Meet(s + [x], ids + [i], i) == Meet(s, ids, i) * x
  {
    var big, bigIds := s + [x], ids + [i];
    forall y ensures InMeet(big, bigIds, i, y) <==> InMeet(s, ids, i, y) && y in x {
      if InMeet(big, bigIds, i, y) {
        assert y in big[|s|];
        forall k | 0 <= k < |s| && ids[k] == i ensures y in s[k] {
          assert y in big[k];
        }
      }
    }
    assert bigIds[|ids|] == i;
    forall y ensures y in Meet(big, bigIds, i) <==> y in Meet(s, ids, i) * x {
      MeetExact(s, ids, i, y);
      MeetExact(big, bigIds, i, y);
    }
  }

  lemma {:induction false} BlockNonEmpty(ids: seq<nat>, b: nat)
    requires b in ids
    ensures BlockSize(ids, b) > 0
  {
    var n := |ids| - 1;
    if ids[n] != b {
      assert b in ids[..n];
      BlockNonEmpty(ids[..n], b);
    }
  }

  lemma {:induction false} JoinedFactor(s: Family, ids: seq<nat>, x: set<nat>, i: nat)
    requires |ids| == |s| && i in ids
    ensures Factor(s + [x], ids + [i], i) == Times(-(BlockSize(ids, i) as int), CutFactor(s, ids, x, i, i))
  {
    JoinedMeet(s, ids, x, i);
    BlockNonEmpty(ids, i);
    assert (ids + [i])[..|ids|] == ids;
    var t := BlockSize(ids, i);
    assert Weight(t + 1) == Times(-(t as int), Weight(t));
    TimesRegroups(-(t as int), Weight(t), |Meet(s, ids, i) * x|);
  }

  lemma {:induction false} JoinedFactorAt(s: Family, ids: seq<nat>, x: set<nat>, i: nat, b: nat)
    requires |ids| == |s| && i in ids && b in ids
    ensures Factor(s + [x], ids + [i], b)
      == if b == i then Times(-(BlockSize(ids, i) as int), CutFactor(s, ids, x, i, b)) else CutFactor(s, ids, x, i, b)
  {
    if b == i {
      JoinedFactor(s, ids, x, i);
    } else {
      OtherFactor(s, ids, x, i, b);
    }
  }

  lemma {:induction false} JoinedIsCut(s: Family, ids: seq<nat>, x: set<nat>, i: nat, cnt: nat, k: nat)
    requires |ids| == |s| && Growth(ids, cnt) && i < cnt && k <= cnt
    ensures Term(s + [x], ids + [i], k)
      == if i < k then Times(-(BlockSize(ids, i) as int), CutTerm(s, ids, x, i, k)) else CutTerm(s, ids, x, i, k)
    decreases k
  {
    hide Factor, CutFactor, BlockSize;
    if k > 0 {
      JoinedIsCut(s, ids, x, i, cnt, k - 1);
      assert (k - 1) in ids && i in ids;
      JoinedFactorAt(s, ids, x, i, k - 1);
      TimesRegroups(-(BlockSize(ids, i) as int), CutFactor(s, ids, x, i, k - 1), CutTerm(s, ids, x, i, k - 1));
    }
  }

  // ----- gathering the children of one partition -----

  /** Sum over elements j < n whose block is below i of the value g(block of j). */
  ghost function PickBelow(ids: seq<nat>, g: nat -> int, n: nat, i: nat): int
    requires n <= |ids|
  {
    if n == 0 then 0 else PickBelow(ids, g, n - 1, i) + if ids[n - 1] < i then g(ids[n - 1]) else 0
  }

  lemma {:induction false} PickNext(ids: seq<nat>, g: nat -> int, n: nat, i: nat)
    requires n <= |ids|
    ensures PickBelow(ids, g, n, i + 1) == PickBelow(ids, g, n, i) + Times(BlockSize(ids[..n], i), g(i))
  {
    if n > 0 {
      PickNext(ids, g, n - 1, i);
      assert ids[..n][..n - 1] == ids[..n - 1] && ids[..n][n - 1] == ids[n - 1];
      TimesNext(BlockSize(ids[..n - 1], i), g(i));
    }
  }

  lemma {:induction false} TimesNext(k: int, a: int)
    ensures Times(k + 1, a) == Times(k, a) + a
    ensures Times(-k, a) == -Times(k, a)
    ensures Times(0, a) == 0
  {
  }

  lemma {:induction false} PickNone(ids: seq<nat>, g: nat -> int, n: nat)
    requires n <= |ids|
    ensures PickBelow(ids, g, n, 0) == 0
  {
    if n > 0 {
      PickNone(ids, g, n - 1);
    }
  }

  ghost function Cuts(s: Family, ids: seq<nat>, x: set<nat>, cnt: nat): nat -> int {
    (i: nat) => if |ids| == |s| then CutTerm(s, ids, x, i, cnt) else 0
  }

  /** Joining block i counts once, with a minus sign, for each element of the block. */
  lemma {:induction false} JoinsArePicks(s: Family, ids: seq<nat>, x: set<nat>, cnt: nat, i: nat)
    requires |ids| == |s| && Growth(ids, cnt) && i <= cnt
    ensures Joins(ids, cnt, i, Terms(s + [x])) == -PickBelow(ids, Cuts(s, ids, x, cnt), |ids|, i)
  {
    var g := Cuts(s, ids, x, cnt);
    if i == 0 {
      PickNone(ids, g, |ids|);
    } else {
      JoinsArePicks(s, ids, x, cnt, i - 1);
      JoinedIsCut(s, ids, x, i - 1, cnt, cnt);
      PickNext(ids, g, |ids|, i - 1);
      assert ids[..|ids|] == ids;
      TimesNext(BlockSize(ids, i - 1), g(i - 1));
    }
  }

  /** The weighings of the families in which one of the first k sets also meets x. */
  ghost function Shrunk(s: Family, x: set<nat>, k: nat): (fs: seq<Weighing>)
    requires k <= |s|
    ensures |fs| == k
  {
    if k == 0 then [] else Shrunk(s, x, k - 1) + [Terms(Shrink(s, k - 1, x))]
  }

  lemma {:induction false} ShrunkPile(s: Family, ids: seq<nat>, x: set<nat>, cnt: nat, k: nat)
    requires |ids| == |s| && Growth(ids, cnt) && k <= |s|
    ensures PileAt(Shrunk(s, x, k), ids, cnt) == PickBelow(ids, Cuts(s, ids, x, cnt), k, cnt)
    decreases k
  {
    if k > 0 {
      ShrunkPile(s, ids, x, cnt, k - 1);
      assert Shrunk(s, x, k)[..k - 1] == Shrunk(s, x, k - 1);
      ShrunkIsCut(s, ids, x, k - 1, cnt, cnt);
    }
  }

  lemma {:induction false} ChildrenCombine(s: Family, x: set<nat>)
    ensures Combines(|s|, Level(Terms(s + [x])), |x|, Terms(s), Pile(Shrunk(s, x, |s|)))
  {
    forall p, c | |p| == |s| && Growth(p, c)
      ensures Level(Terms(s + [x]))(p, c) == |x| * Terms(s)(p, c) - Pile(Shrunk(s, x, |s|))(p, c)
    {
      OpenedTerm(s, p, x, c);
      JoinsArePicks(s, p, x, c, c);
      ShrunkPile(s, p, x, c, |s|);
    }
  }

  lemma {:induction false} ShrunkSums(s: Family, x: set<nat>, k: nat)
    requires k <= |s|
    requires forall j :: 0 <= j < k ==> Exact(Shrink(s, j, x))
    ensures SumEach(|s|, Shrunk(s, x, k)) == ShrunkCounts(s, x, k)
    decreases k
  {
    if k > 0 {
      ShrunkSums(s, x, k - 1);
      assert Shrunk(s, x, k)[..k - 1] == Shrunk(s, x, k - 1);
      assert Exact(Shrink(s, k - 1, x));
    }
  }

  /** The partition sum counts the injective choices. */
  ghost predicate Exact(s: Family) {
    LeafSum(|s|, [], 0, Terms(s)) == |InjectiveChoices(s)|
  }

  /** Inclusion-exclusion: weighting each set partition by the product over its
      blocks of Mu(block size) times the size of the blocks' intersection counts
      exactly the injective tuples. */
  lemma {:induction false} PartitionsCountInjective(s: Family)
    ensures Exact(s)
    decreases |s|
  {
    if |s| == 0 {
      assert InjectiveChoices(s) == {[]};
    } else {
      var n := |s| - 1;
      var rest, x := s[..n], s[n];
      assert s == rest + [x];
      PartitionsCountInjective(rest);
      forall j | 0 <= j < n ensures Exact(Shrink(rest, j, x)) {
        PartitionsCountInjective(Shrink(rest, j, x));
      }
      LevelDown(|s|, [], 0, Terms(s));
      ChildrenCombine(rest, x);
      SumsCombine(n, [], 0, Level(Terms(s)), |x|, Terms(rest), Pile(Shrunk(rest, x, n)));
      SumOfPile(n, Shrunk(rest, x, n));
      ShrunkSums(rest, x, n);
      OneMoreSet(rest, x);
    }
  }
}
