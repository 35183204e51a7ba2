/** Strictly sorted lists as sets: what the merge loops of the interpreter compute. */
module SortedLists {
  import opened Counting
  import opened Patterns

  /** r lists exactly the members of the set s, in order. */
  ghost predicate Lists(r: seq<nat>, s: set<nat>) {
    Sorted(r) && Elements(r) == s
  }

  lemma {:induction false} ListsSize(r: seq<nat>, s: set<nat>)
    requires Lists(r, s)
    ensures |r| == |s|
  {
    DistinctSize(r);
  }

  /** Everything in b[..j] lies below everything in a[i..]. */
  ghost predicate Passed(a: seq<nat>, i: nat, b: seq<nat>, j: nat) {
    forall s, t :: i <= s < |a| && 0 <= t < j && t < |b| ==> b[t] < a[s]
  }

  /** out holds what a[..i] shares with b. */
  ghost predicate Shared(out: seq<nat>, a: seq<nat>, i: nat, b: seq<nat>)
    requires i <= |a|
  {
    Sorted(out) && forall x :: x in out <==> x in a[..i] && x in b
  }

  lemma {:induction false} SharedSkip(out: seq<nat>, a: seq<nat>, i: nat, b: seq<nat>)
    requires i < |a| && Shared(out, a, i, b) && a[i] !in b
    ensures Shared(out, a, i + 1, b)
  {
    assert a[..i + 1] == a[..i] + [a[i]];
  }

  lemma {:induction false} SharedTake(out: seq<nat>, a: seq<nat>, i: nat, b: seq<nat>)
    requires i < |a| && Shared(out, a, i, b) && a[i] in b && Sorted(a)
    ensures Shared(out + [a[i]], a, i + 1, b)
  {
    assert a[..i + 1] == a[..i] + [a[i]];
    forall k | 0 <= k < |out| ensures out[k] < a[i] {
      assert out[k] in a[..i];
    }
  }

  lemma {:induction false} SharedDone(out: seq<nat>, a: seq<nat>, i: nat, b: seq<nat>, j: nat)
    requires i <= |a| && j <= |b| && Shared(out, a, i, b) && Passed(a, i, b, j) && Sorted(b)
    requires i == |a| || j == |b|
    ensures Lists(out, Elements(a) * Elements(b))
  {
    forall x | x in a && x in b ensures x in a[..i] {
      var s :| 0 <= s < |a| && a[s] == x;
      var t :| 0 <= t < |b| && b[t] == x;
      assert s < i ==> a[..i][s] == x;
    }
    assert Elements(out) == Elements(a) * Elements(b);
  }

  lemma {:induction false} NotFound(a: seq<nat>, i: nat, b: seq<nat>, j: nat)
    requires i < |a| && j < |b| && Passed(a, i, b, j) && Sorted(b) && a[i] < b[j]
    ensures a[i] !in b
  {
  }

  method Intersection(set0: seq<nat>, set1: seq<nat>) returns (out: seq<nat>)
    requires Sorted(set0) && Sorted(set1)
    ensures Lists(out, Elements(set0) * Elements(set1))
  {
    out := [];
    var i, j := 0, 0;
    while i < |set0| && j < |set1|
      invariant i <= |set0| && j <= |set1|
      invariant Shared(out, set0, i, set1) && Passed(set0, i, set1, j)
      decreases |set0| + |set1| - i - j
    {
      var data0, data1 := set0[i], set1[j];
      if data0 < data1 {
        NotFound(set0, i, set1, j);
        SharedSkip(out, set0, i, set1);
        i := i + 1;
      } else if data0 > data1 {
        j := j + 1;
      } else {
        SharedTake(out, set0, i, set1);
        out := out + [data0];
        i, j := i + 1, j + 1;
      }
    }
    SharedDone(out, set0, i, set1, j);
  }

  lemma {:induction false} SharedShort(out: seq<nat>, a: seq<nat>, i: nat, b: seq<nat>)
    requires i <= |a| && Shared(out, a, i, b)
    ensures |out| <= i
  {
    DistinctSize(out);
    assert Elements(out) <= Elements(a[..i]);
    SubsetSize(Elements(out), Elements(a[..i]));
    ElementsShort(a[..i]);
  }

  lemma {:induction false} ElementsShort(a: seq<nat>)
    ensures |Elements(a)| <= |a|
  {
    if |a| > 0 {
      var n := |a| - 1;
      ElementsShort(a[..n]);
      assert Elements(a) == Elements(a[..n]) + {a[n]};
    } else {
      assert Elements(a) == {};
    }
  }

  /** Intersects in place: results overwrite the front of data while it is being read. */
  method IntersectionWith(data: array<nat>, size0: nat, set1: seq<nat>) returns (size: nat)
    requires size0 <= data.Length && Sorted(data[..size0]) && Sorted(set1)
    modifies data
    ensures size <= size0
    ensures Lists(data[..size], Elements(old(data[..size0])) * Elements(set1))
  {
    ghost var a := data[..size0];
    var i, j := 0, 0;
    size := 0;
    while i < size0 && j < |set1|
      invariant size <= i <= size0 && j <= |set1|
      invariant forall k :: i <= k < size0 ==> data[k] == a[k]
      invariant Shared(data[..size], a, i, set1) && Passed(a, i, set1, j)
      decreases size0 + |set1| - i - j
    {
      var data0, data1 := data[i], set1[j];
      if data0 < data1 {
        NotFound(a, i, set1, j);
        SharedSkip(data[..size], a, i, set1);
        i := i + 1;
      } else if data0 > data1 {
        j := j + 1;
      } else {
        ghost var out := data[..size];
        SharedTake(out, a, i, set1);
        SharedShort(out, a, i, set1);
        data[size] := data0;
        assert data[..size + 1] == out + [data0];
        size := size + 1;
        i, j := i + 1, j + 1;
      }
    }
    SharedDone(data[..size], a, i, set1, j);
  }

  method HasData(data: seq<nat>, val: nat) returns (found: bool)
    ensures found <==> val in data
  {
    for i := 0 to |data|
      invariant val !in data[..i]
    {
      if data[i] == val {
        return true;
      }
    }
    return false;
  }

  /** Counts the members of set0 outside the unordered, duplicate-free set1. */
  method UnorderedSubtractionSize(set0: seq<nat>, set1: seq<nat>) returns (ret: int)
    requires Sorted(set0) && Distinct(set1)
    ensures ret == |Elements(set0) - Elements(set1)|
  {
    ret := |set0|;
    DistinctSize(set0);
    assert Elements(set0) - Elements(set1[..0]) == Elements(set0);
    for j := 0 to |set1|
      invariant ret == |Elements(set0) - Elements(set1[..j])|
    {
      SubtractOne(Elements(set0), set1, j);
      if set1[j] in set0 {
        ret := ret - 1;
      }
    }
    assert set1[..|set1|] == set1;
  }

  lemma {:induction false} SubtractOne(s: set<nat>, set1: seq<nat>, j: nat)
    requires j < |set1| && Distinct(set1)
    ensures |s - Elements(set1[..j + 1])| == |s - Elements(set1[..j])| - if set1[j] in s then 1 else 0
  {
    var a, b, x := s - Elements(set1[..j]), s - Elements(set1[..j + 1]), set1[j];
    assert set1[..j + 1] == set1[..j] + [x];
    assert x !in set1[..j];
    if x in s {
      assert a == b + {x} && x !in b;
    } else {
      assert a == b;
    }
  }

  /** std::lower_bound: the length of the part below `bound`. */
  method LowerBound(data: seq<nat>, bound: nat) returns (k: nat)
    requires Sorted(data)
    ensures k <= |data|
    ensures forall x :: x in data[..k] <==> x in data && x < bound
  {
    k := 0;
    while k < |data| && data[k] < bound
      invariant k <= |data| && forall i :: 0 <= i < k ==> data[i] < bound
    {
      k := k + 1;
    }
    forall x ensures x in data[..k] <==> x in data && x < bound {
      if x in data && x < bound {
        var i :| 0 <= i < |data| && data[i] == x;
        assert i < k;
        assert data[..k][i] == x;
      }
      if x in data[..k] {
        var i :| 0 <= i < k && data[..k][i] == x;
        assert data[i] == x;
      }
    }
  }
}
