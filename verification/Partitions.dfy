/** Partitions as canonical labellings, and the parent forests that represent them. */
module Partitions {
  import opened Counting

  /** part[x] is the least element of the class of x. */
  ghost predicate IsPartition(part: seq<nat>) {
    && (forall x :: 0 <= x < |part| ==> part[x] <= x)
    && (forall x {:trigger part[part[x]]} :: 0 <= x < |part| ==> part[part[x]] == part[x])
  }

  ghost function Discrete(n: nat): (part: seq<nat>)
    ensures |part| == n && IsPartition(part)
    ensures forall x :: 0 <= x < n ==> part[x] == x
  {
    seq(n, i => i)
  }

  ghost function Min(a: nat, b: nat): nat { if a < b then a else b }

  /** The label l once the classes p and q are one. */
  ghost function Relabel(l: nat, p: nat, q: nat): nat {
    if l == p || l == q then Min(p, q) else l
  }

  /** The least partition above `part` that puts a and b together. */
  ghost function Join(part: seq<nat>, a: nat, b: nat): (r: seq<nat>)
    requires IsPartition(part) && a < |part| && b < |part|
    ensures |r| == |part| && IsPartition(r)
  {
    var p, q := part[a], part[b];
    seq(|part|, x requires 0 <= x < |part| => Relabel(part[x], p, q))
  }

  ghost function ClassCount(part: seq<nat>): nat {
    |Elements(part)|
  }

  lemma {:induction false} JoinCount(part: seq<nat>, a: nat, b: nat)
    requires IsPartition(part) && a < |part| && b < |part|
    ensures part[a] == part[b] ==> Join(part, a, b) == part
    ensures part[a] != part[b] ==> ClassCount(Join(part, a, b)) == ClassCount(part) - 1
  {
    var r := Join(part, a, b);
    if part[a] != part[b] {
      var lo := Min(part[a], part[b]);
      var hi := part[a] + part[b] - lo;
      assert hi in part;
      forall l ensures l in r <==> l in part && l != hi {
        if l in part && l != hi {
          assert part[l] == l;
          assert r[l] == l;
        }
      }
      assert Elements(part) == Elements(r) + {hi};
    }
  }

  lemma {:induction false} JoinsCommute(part: seq<nat>, a: nat, b: nat, c: nat, d: nat)
    requires IsPartition(part) && a < |part| && b < |part| && c < |part| && d < |part|
    ensures Join(Join(part, a, b), c, d) == Join(Join(part, c, d), a, b)
  {
  }

  lemma {:induction false} DiscreteCount(n: nat)
    ensures ClassCount(Discrete(n)) == n
  {
    DistinctSize(Discrete(n));
  }

  /** father points towards the root of each tree; steps bounds the distance. */
  ghost predicate Forest(father: seq<nat>, root: seq<nat>, steps: seq<nat>) {
    && |root| == |father| && |steps| == |father|
    && (forall x :: 0 <= x < |father| ==> father[x] < |father| && root[x] < |father|)
    && (forall x {:trigger root[father[x]]} :: 0 <= x < |father| ==> root[father[x]] == root[x])
    && (forall x {:trigger father[root[x]]} :: 0 <= x < |father| ==> father[root[x]] == root[x])
    && (forall x :: 0 <= x < |father| ==> (father[x] == x <==> root[x] == x))
    && (forall x :: 0 <= x < |father| && father[x] != x ==> steps[father[x]] < steps[x] && steps[root[x]] < steps[x])
  }

  /** Two elements share a root exactly when they share a label. */
  ghost predicate SameClasses(root: seq<nat>, part: seq<nat>) {
    && |root| == |part|
    && forall x, y :: 0 <= x < |root| && 0 <= y < |root| ==> (root[x] == root[y] <==> part[x] == part[y])
  }

  lemma {:induction false} ForestCompress(father: seq<nat>, root: seq<nat>, steps: seq<nat>, a: nat)
    requires Forest(father, root, steps) && a < |father|
    ensures Forest(father[a := root[a]], root, steps)
  {
    assert root[root[a]] == root[a];
  }

  ghost function LinkRoot(root: seq<nat>, f1: nat, f2: nat): (r: seq<nat>)
    ensures |r| == |root|
    ensures forall x :: 0 <= x < |root| ==> r[x] == if root[x] == f1 then f2 else root[x]
  {
    seq(|root|, x requires 0 <= x < |root| => if root[x] == f1 then f2 else root[x])
  }

  ghost function LinkSteps(root: seq<nat>, steps: seq<nat>, f1: nat, f2: nat): (r: seq<nat>)
    requires |root| == |steps| && f2 < |steps|
    ensures |r| == |root|
    ensures forall x :: 0 <= x < |root| ==> r[x] == if root[x] == f1 then steps[x] + steps[f2] + 1 else steps[x]
  {
    seq(|root|, x requires 0 <= x < |root| => if root[x] == f1 then steps[x] + steps[f2] + 1 else steps[x])
  }

  lemma {:induction false} ForestLink(father: seq<nat>, root: seq<nat>, steps: seq<nat>, f1: nat, f2: nat)
    requires Forest(father, root, steps) && f1 < |father| && f2 < |father| && f1 != f2
    requires root[f1] == f1 && root[f2] == f2
    ensures Forest(father[f1 := f2], LinkRoot(root, f1, f2), LinkSteps(root, steps, f1, f2))
  {
    var nf, nr, ns := father[f1 := f2], LinkRoot(root, f1, f2), LinkSteps(root, steps, f1, f2);
    forall x | 0 <= x < |father|
      ensures nr[nf[x]] == nr[x] && nf[nr[x]] == nr[x] && (nf[x] == x <==> nr[x] == x)
      ensures nf[x] != x ==> ns[nf[x]] < ns[x] && ns[nr[x]] < ns[x]
    {
      assert root[father[x]] == root[x] && father[root[x]] == root[x];
      assert father[x] != x ==> steps[father[x]] < steps[x] && steps[root[x]] < steps[x];
    }
  }

  lemma {:induction false} ClassesLink(root: seq<nat>, part: seq<nat>, a: nat, b: nat)
    requires SameClasses(root, part) && IsPartition(part) && a < |root| && b < |root|
    ensures SameClasses(LinkRoot(root, root[a], root[b]), Join(part, a, b))
  {
  }

  /** What merge needs: either nothing changes, or one root is hung below the other. */
  lemma {:induction false} LinkStep(father: seq<nat>, root: seq<nat>, steps: seq<nat>, part: seq<nat>, a: nat, b: nat)
    requires Forest(father, root, steps) && SameClasses(root, part) && IsPartition(part)
    requires a < |father| && b < |father|
    ensures root[a] == root[b] ==> Join(part, a, b) == part
    ensures root[a] != root[b] ==>
      && ClassCount(Join(part, a, b)) == ClassCount(part) - 1
      && Forest(father[root[a] := root[b]], LinkRoot(root, root[a], root[b]), LinkSteps(root, steps, root[a], root[b]))
      && SameClasses(LinkRoot(root, root[a], root[b]), Join(part, a, b))
  {
    JoinCount(part, a, b);
    if root[a] != root[b] {
      assert father[root[a]] == root[a] && father[root[b]] == root[b];
      ForestLink(father, root, steps, root[a], root[b]);
      ClassesLink(root, part, a, b);
    }
  }
}
