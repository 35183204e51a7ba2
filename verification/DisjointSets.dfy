/** The union-find structure, refining a partition. */
module DisjointSets {
  import opened Partitions

  class DisjointSetUnion {
    const size: nat
    var setSize: int
    var father: array<nat>
    ghost var root: seq<nat>
    ghost var steps: seq<nat>
    /** The abstract value: the partition generated by the merges since init. */
    ghost var part: seq<nat>

    ghost predicate Valid()
      reads this, father
    {
      && father.Length == size && |part| == size
      && Forest(father[..], root, steps)
      && IsPartition(part) && SameClasses(root, part)
      && setSize == ClassCount(part)
    }

    constructor (n: nat)
      ensures Valid() && size == n && fresh(father) && part == Discrete(n)
    {
      size := n;
      father := new nat[n](i => i);
      setSize := n;
      root, steps, part := Discrete(n), seq(n, i => 0), Discrete(n);
      new;
      DiscreteCount(n);
      assert father[..] == Discrete(n);
    }

    method Init()
      requires Valid()
      modifies this, father
      ensures Valid() && father == old(father) && part == Discrete(size)
    {
      for i := 0 to size
        invariant father == old(father) && father.Length == size
        invariant forall x :: 0 <= x < i ==> father[x] == x
      {
        father[i] := i;
      }
      setSize := size;
      root, steps, part := Discrete(size), seq(size, i => 0), Discrete(size);
      DiscreteCount(size);
      assert father[..] == Discrete(size);
    }

    /** Follows and compresses the path; the partition does not change. */
    method GetFather(a: nat) returns (r: nat)
      requires Valid() && a < size
      modifies father
      ensures Valid() && r == root[a]
      decreases steps[a]
    {
      if father[a] == a {
        return a;
      }
      assert father[..][a] == father[a];
      r := GetFather(father[a]);
      ghost var was := father[..];
      ForestCompress(was, root, steps, a);
      father[a] := r;
      assert father[..] == was[a := r];
    }

    method HangBelow(fa1: nat, fa2: nat, ghost root': seq<nat>, ghost steps': seq<nat>, ghost part': seq<nat>)
      requires father.Length == size && fa1 < size && |part'| == size
      requires Forest(father[..][fa1 := fa2], root', steps')
      requires IsPartition(part') && SameClasses(root', part')
      requires setSize - 1 == ClassCount(part')
      modifies this, father
      ensures Valid() && father == old(father) && part == part'
    {
      setSize := setSize - 1;
      ghost var linked := father[..][fa1 := fa2];
      father[fa1] := fa2;
      assert father[..] == linked;
      root, steps, part := root', steps', part';
    }

    method Merge(id1: nat, id2: nat)
      requires Valid() && id1 < size && id2 < size
      modifies this, father
      ensures Valid() && father == old(father)
      ensures part == Join(old(part), id1, id2)
    {
      var fa1 := GetFather(id1);
      var fa2 := GetFather(id2);
      LinkStep(father[..], root, steps, part, id1, id2);
      if fa1 != fa2 {
        HangBelow(fa1, fa2, LinkRoot(root, fa1, fa2), LinkSteps(root, steps, fa1, fa2), Join(part, id1, id2));
      }
    }
  }
}
