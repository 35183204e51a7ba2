/** Sums over the set partitions of [0, num), in the order the source enumerates
    them: each element opens a new block or joins an earlier one. */
module SetPartitions {
  import opened Arithmetic

  /** ids[j] is the block of element j; the blocks are 0..cnt-1 and none is empty. */
  ghost predicate Growth(ids: seq<nat>, cnt: nat) {
    && (forall j :: 0 <= j < |ids| ==> ids[j] < cnt)
    && (forall b :: 0 <= b < cnt ==> b in ids)
  }

  lemma {:induction false} GrowthOpens(ids: seq<nat>, cnt: nat)
    requires Growth(ids, cnt)
    ensures Growth(ids + [cnt], cnt + 1)
  {
    forall b | 0 <= b < cnt + 1 ensures b in ids + [cnt] {
      if b < cnt {
        assert b in ids;
      } else {
        assert (ids + [cnt])[|ids|] == b;
      }
    }
  }

  lemma {:induction false} GrowthJoins(ids: seq<nat>, cnt: nat, i: nat)
    requires Growth(ids, cnt) && i < cnt
    ensures Growth(ids + [i], cnt)
  {
    forall b | 0 <= b < cnt ensures b in ids + [i] {
      assert b in ids;
    }
  }

  type Weighing = (seq<nat>, nat) -> int

  /** Sum of f over the partitions of [0, num) that extend ids. */
  ghost function LeafSum(num: nat, ids: seq<nat>, cnt: nat, f: Weighing): int
    requires |ids| <= num
    decreases num - |ids|, cnt + 1
  {
    if |ids| == num then
      f(ids, cnt)
    else
      LeafSum(num, ids + [cnt], cnt + 1, f) + JoinSum(num, ids, cnt, cnt, f)
  }

  ghost function JoinSum(num: nat, ids: seq<nat>, cnt: nat, i: nat, f: Weighing): int
    requires |ids| < num && i <= cnt
    decreases num - |ids|, i
  {
    if i == 0 then 0 else JoinSum(num, ids, cnt, i - 1, f) + LeafSum(num, ids + [i - 1], cnt, f)
  }

  /** The one-element extensions of a single partition. */
  ghost function Children(ids: seq<nat>, cnt: nat, f: Weighing): int {
    f(ids + [cnt], cnt + 1) + Joins(ids, cnt, cnt, f)
  }

  ghost function Joins(ids: seq<nat>, cnt: nat, i: nat, f: Weighing): int {
    if i == 0 then 0 else Joins(ids, cnt, i - 1, f) + f(ids + [i - 1], cnt)
  }

  ghost function Level(f: Weighing): Weighing {
    (p: seq<nat>, c: nat) => Children(p, c, f)
  }

  /** Summing over num elements is summing the children over num - 1. */
  lemma {:induction false} LevelDown(num: nat, ids: seq<nat>, cnt: nat, f: Weighing)
    requires |ids| < num
    ensures LeafSum(num, ids, cnt, f) == LeafSum(num - 1, ids, cnt, Level(f))
    decreases num - |ids|, cnt + 1
  {
    if |ids| == num - 1 {
      LastJoins(num, ids, cnt, cnt, f);
    } else {
      LevelDown(num, ids + [cnt], cnt + 1, f);
      LevelDownJoins(num, ids, cnt, cnt, f);
    }
  }

  lemma {:induction false} LastJoins(num: nat, ids: seq<nat>, cnt: nat, i: nat, f: Weighing)
    requires |ids| == num - 1 && i <= cnt
    ensures JoinSum(num, ids, cnt, i, f) == Joins(ids, cnt, i, f)
  {
    if i > 0 {
      LastJoins(num, ids, cnt, i - 1, f);
    }
  }

  lemma {:induction false} LevelDownJoins(num: nat, ids: seq<nat>, cnt: nat, i: nat, f: Weighing)
    requires |ids| < num - 1 && i <= cnt
    ensures JoinSum(num, ids, cnt, i, f) == JoinSum(num - 1, ids, cnt, i, Level(f))
    decreases num - |ids|, i
  {
    if i > 0 {
      LevelDownJoins(num, ids, cnt, i - 1, f);
      LevelDown(num, ids + [i - 1], cnt, f);
    }
  }

  /** h agrees with k*a - b on every partition of [0, num). */
  ghost predicate Combines(num: nat, h: Weighing, k: int, a: Weighing, b: Weighing) {
    forall p, c :: |p| == num && Growth(p, c) ==> h(p, c) == k * a(p, c) - b(p, c)
  }

  lemma {:induction false} SumsCombine(num: nat, ids: seq<nat>, cnt: nat, h: Weighing, k: int, a: Weighing, b: Weighing)
    requires |ids| <= num && Growth(ids, cnt) && Combines(num, h, k, a, b)
    ensures LeafSum(num, ids, cnt, h) == Times(k, LeafSum(num, ids, cnt, a)) - LeafSum(num, ids, cnt, b)
    decreases num - |ids|, cnt + 1
  {
    if |ids| < num {
      GrowthOpens(ids, cnt);
      SumsCombine(num, ids + [cnt], cnt + 1, h, k, a, b);
      JoinsCombine(num, ids, cnt, cnt, h, k, a, b);
      TimesAdds(k, LeafSum(num, ids + [cnt], cnt + 1, a), JoinSum(num, ids, cnt, cnt, a));
    }
  }

  lemma {:induction false} JoinsCombine(num: nat, ids: seq<nat>, cnt: nat, i: nat, h: Weighing, k: int, a: Weighing, b: Weighing)
    requires |ids| < num && i <= cnt && Growth(ids, cnt) && Combines(num, h, k, a, b)
    ensures JoinSum(num, ids, cnt, i, h) == Times(k, JoinSum(num, ids, cnt, i, a)) - JoinSum(num, ids, cnt, i, b)
    decreases num - |ids|, i
  {
    if i > 0 {
      JoinsCombine(num, ids, cnt, i - 1, h, k, a, b);
      GrowthJoins(ids, cnt, i - 1);
      SumsCombine(num, ids + [i - 1], cnt, h, k, a, b);
      TimesAdds(k, JoinSum(num, ids, cnt, i - 1, a), LeafSum(num, ids + [i - 1], cnt, a));
    }
  }

  /** The pointwise sum of finitely many weighings. */
  ghost function Pile(fs: seq<Weighing>): Weighing {
    (p: seq<nat>, c: nat) => PileAt(fs, p, c)
  }

  ghost function PileAt(fs: seq<Weighing>, p: seq<nat>, c: nat): int {
    if |fs| == 0 then 0 else PileAt(fs[..|fs| - 1], p, c) + fs[|fs| - 1](p, c)
  }

  ghost function SumEach(num: nat, fs: seq<Weighing>): int {
    if |fs| == 0 then 0 else SumEach(num, fs[..|fs| - 1]) + LeafSum(num, [], 0, fs[|fs| - 1])
  }

  ghost function Zero(): Weighing {
    (p: seq<nat>, c: nat) => 0
  }

  ghost function Negated(a: Weighing): Weighing {
    (p: seq<nat>, c: nat) => -a(p, c)
  }

  lemma {:induction false} SumOfPile(num: nat, fs: seq<Weighing>)
    ensures LeafSum(num, [], 0, Pile(fs)) == SumEach(num, fs)
  {
    SumsCombine(num, [], 0, Zero(), 0, Zero(), Zero());
    if |fs| == 0 {
      SumsCombine(num, [], 0, Pile(fs), 0, Zero(), Zero());
    } else {
      var rest, last := fs[..|fs| - 1], fs[|fs| - 1];
      SumOfPile(num, rest);
      SumsCombine(num, [], 0, Pile(fs), 1, Pile(rest), Negated(last));
      SumsCombine(num, [], 0, Negated(last), 0, Zero(), last);
    }
  }
}
