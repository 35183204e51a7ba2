/** The set operations of the generated code, on strictly sorted lists. Each method
    covers a kernel's two overloads, without and with an upper bound. */
module VertexKernels {
  import opened Counting
  import opened Patterns
  import opened SortedLists

  datatype Limit = Free | Upper(bound: nat) {
    predicate Stops(x: nat) {
      Upper? && x >= bound
    }

    ghost function Cut(s: set<nat>): (r: set<nat>)
      ensures forall x :: x in r <==> x in s && !Stops(x)
    {
      set x | x in s && !Stops(x)
    }
  }

  /** What lies beyond i in a and beyond j in b is beyond the limit, or a or b is spent. */
  ghost predicate Stopped(a: seq<nat>, i: nat, b: seq<nat>, j: nat, limit: Limit) {
    i >= |a| || j >= |b| || limit.Stops(a[i]) || limit.Stops(b[j])
  }

  lemma {:induction false} LaterStop(a: seq<nat>, i: nat, limit: Limit)
    requires Sorted(a) && (i < |a| ==> limit.Stops(a[i]))
    ensures forall k :: i <= k < |a| ==> limit.Stops(a[k])
  {
    forall k | i < k < |a| ensures a[i] < a[k] {}
  }

  /** When the merge stops, out holds the common members within the limit. */
  lemma {:induction false} MergeDone(out: seq<nat>, a: seq<nat>, i: nat, b: seq<nat>, j: nat, limit: Limit)
    requires Sorted(a) && Sorted(b) && i <= |a| && j <= |b|
    requires Shared(out, a, i, b) && Passed(a, i, b, j) && Stopped(a, i, b, j, limit)
    requires forall x :: x in out ==> !limit.Stops(x)
    ensures Lists(out, limit.Cut(Elements(a) * Elements(b)))
  {
    if i < |a| && limit.Stops(a[i]) {
      LaterStop(a, i, limit);
    }
    if j < |b| && limit.Stops(b[j]) {
      LaterStop(b, j, limit);
    }
    forall x | x in a && x in b && !limit.Stops(x) ensures x in a[..i] {
      var s :| 0 <= s < |a| && a[s] == x;
      var t :| 0 <= t < |b| && b[t] == x;
      assert s < i ==> a[..i][s] == x;
    }
    assert Elements(out) == limit.Cut(Elements(a) * Elements(b));
  }

  method Intersect(a: seq<nat>, b: seq<nat>, limit: Limit) returns (out: seq<nat>)
    requires Sorted(a) && Sorted(b)
    ensures Lists(out, limit.Cut(Elements(a) * Elements(b)))
  {
    out := [];
    var i, j := 0, 0;
    while i < |a| && j < |b| && !limit.Stops(a[i]) && !limit.Stops(b[j])
      invariant i <= |a| && j <= |b|
      invariant Shared(out, a, i, b) && Passed(a, i, b, j)
      invariant forall x :: x in out ==> !limit.Stops(x)
      decreases |a| + |b| - i - j
    {
      var left, right := a[i], b[j];
      if left == right {
        SharedTake(out, a, i, b);
        out := out + [left];
      } else if left < right {
        NotFound(a, i, b, j);
        SharedSkip(out, a, i, b);
      }
      if left <= right {
        i := i + 1;
      }
      if right <= left {
        j := j + 1;
      }
    }
    MergeDone(out, a, i, b, j, limit);
  }

  method IntersectCnt(a: seq<nat>, b: seq<nat>, limit: Limit) returns (outSize: nat)
    requires Sorted(a) && Sorted(b)
    ensures outSize == |limit.Cut(Elements(a) * Elements(b))|
  {
    outSize := 0;
    ghost var out: seq<nat> := [];
    var i, j := 0, 0;
    while i < |a| && j < |b| && !limit.Stops(a[i]) && !limit.Stops(b[j])
      invariant i <= |a| && j <= |b| && outSize == |out|
      invariant Shared(out, a, i, b) && Passed(a, i, b, j)
      invariant forall x :: x in out ==> !limit.Stops(x)
      decreases |a| + |b| - i - j
    {
      var left, right := a[i], b[j];
      if left == right {
        SharedTake(out, a, i, b);
        out := out + [left];
        outSize := outSize + 1;
      } else if left < right {
        NotFound(a, i, b, j);
        SharedSkip(out, a, i, b);
      }
      if left <= right {
        i := i + 1;
      }
      if right <= left {
        j := j + 1;
      }
    }
    MergeDone(out, a, i, b, j, limit);
    ListsSize(out, limit.Cut(Elements(a) * Elements(b)));
  }

  // ----- subtraction -----

  /** out holds the members of a[..i] that are neither in b nor vid. */
  ghost predicate Remaining(out: seq<nat>, a: seq<nat>, i: nat, b: seq<nat>, vid: nat)
    requires i <= |a|
  {
    Sorted(out) && forall x :: x in out <==> x in a[..i] && x !in b && x != vid
  }

  lemma {:induction false} RemainingStep(out: seq<nat>, a: seq<nat>, i: nat, b: seq<nat>, vid: nat)
    requires i < |a| && Sorted(a) && Remaining(out, a, i, b, vid)
    ensures Remaining(if a[i] !in b && a[i] != vid then out + [a[i]] else out, a, i + 1, b, vid)
  {
    assert a[..i + 1] == a[..i] + [a[i]];
    forall k | 0 <= k < |out| ensures out[k] < a[i] {
      assert out[k] in a[..i];
    }
  }

  lemma {:induction false} NotBeyond(a: seq<nat>, i: nat, b: seq<nat>, j: nat, limit: Limit)
    requires Sorted(a) && Sorted(b) && i < |a| && j <= |b| && Passed(a, i, b, j)
    requires Stopped(a, i, b, j, limit) && !limit.Stops(a[i])
    ensures a[i] !in b
  {
    if j < |b| && limit.Stops(b[j]) {
      LaterStop(b, j, limit);
    }
    forall t | 0 <= t < |b| ensures b[t] != a[i] {
    }
  }

  lemma {:induction false} SubtractDone(out: seq<nat>, a: seq<nat>, i: nat, b: seq<nat>, vid: nat, limit: Limit)
    requires Sorted(a) && i <= |a| && Remaining(out, a, i, b, vid) && (i == |a| || limit.Stops(a[i]))
    requires Within(out, limit)
    ensures Lists(out, limit.Cut(Elements(a) - Elements(b) - {vid}))
  {
    LaterStop(a, i, limit);
    forall x | x in a && !limit.Stops(x) ensures x in a[..i] {
      var s :| 0 <= s < |a| && a[s] == x;
      assert s < i ==> a[..i][s] == x;
    }
    assert Elements(out) == limit.Cut(Elements(a) - Elements(b) - {vid});
  }

  ghost predicate Within(out: seq<nat>, limit: Limit) {
    forall x :: x in out ==> !limit.Stops(x)
  }

  lemma {:induction false} WithinGrows(out: seq<nat>, limit: Limit, x: nat)
    requires Within(out, limit) && !limit.Stops(x)
    ensures Within(out + [x], limit)
  {
  }

  /** One step of the merge. */
  lemma {:induction false} PassedStep(a: seq<nat>, i: nat, b: seq<nat>, j: nat)
    requires Sorted(a) && Sorted(b) && i < |a| && j < |b| && Passed(a, i, b, j)
    ensures Passed(a, if a[i] <= b[j] then i + 1 else i, b, if b[j] <= a[i] then j + 1 else j)
  {
  }

  lemma {:induction false} PassedAlone(a: seq<nat>, i: nat, b: seq<nat>, j: nat)
    requires Passed(a, i, b, j)
    ensures Passed(a, i + 1, b, j)
  {
  }

  lemma {:induction false} NothingRemaining(a: seq<nat>, b: seq<nat>, vid: nat, limit: Limit)
    ensures Remaining([], a, 0, b, vid) && Passed(a, 0, b, 0) && Within([], limit)
  {
  }

  /** Also removes vid, the vertex whose row b is. */
  method Subtract(a: seq<nat>, b: seq<nat>, vid: nat, limit: Limit) returns (out: seq<nat>)
    requires Sorted(a) && Sorted(b)
    ensures Lists(out, limit.Cut(Elements(a) - Elements(b) - {vid}))
  {
    hide Remaining, Passed, Within, Sorted, Elements;
    out := [];
    var i, j := 0, 0;
    NothingRemaining(a, b, vid, limit);
    while i < |a| && j < |b| && !limit.Stops(a[i]) && !limit.Stops(b[j])
      invariant i <= |a| && j <= |b|
      invariant Remaining(out, a, i, b, vid) && Passed(a, i, b, j)
      invariant Within(out, limit)
      decreases |a| + |b| - i - j
    {
      var left, right := a[i], b[j];
      PassedStep(a, i, b, j);
      WithinGrows(out, limit, left);
      RemainingStep(out, a, i, b, vid);
      if left < right {
        NotFound(a, i, b, j);
        if left != vid {
          out := out + [left];
        }
      }
      if left <= right {
        i := i + 1;
      }
      if right <= left {
        j := j + 1;
      }
    }
    while i < |a| && !limit.Stops(a[i])
      invariant i <= |a|
      invariant Remaining(out, a, i, b, vid) && Passed(a, i, b, j)
      invariant i < |a| ==> Stopped(a, i, b, j, limit)
      invariant Within(out, limit)
    {
      NotBeyond(a, i, b, j, limit);
      PassedAlone(a, i, b, j);
      WithinGrows(out, limit, a[i]);
      RemainingStep(out, a, i, b, vid);
      if a[i] != vid {
        out := out + [a[i]];
      }
      i := i + 1;
    }
    SubtractDone(out, a, i, b, vid, limit);
  }

  method SubtractCnt(a: seq<nat>, b: seq<nat>, vid: nat, limit: Limit) returns (outSize: nat)
    requires Sorted(a) && Sorted(b)
    ensures outSize == |limit.Cut(Elements(a) - Elements(b) - {vid})|
  {
    hide Remaining, Passed, Within, Sorted, Elements;
    outSize := 0;
    ghost var out: seq<nat> := [];
    var i, j := 0, 0;
    NothingRemaining(a, b, vid, limit);
    while i < |a| && j < |b| && !limit.Stops(a[i]) && !limit.Stops(b[j])
      invariant i <= |a| && j <= |b| && outSize == |out|
      invariant Remaining(out, a, i, b, vid) && Passed(a, i, b, j)
      invariant Within(out, limit)
      decreases |a| + |b| - i - j
    {
      var left, right := a[i], b[j];
      PassedStep(a, i, b, j);
      WithinGrows(out, limit, left);
      RemainingStep(out, a, i, b, vid);
      if left < right {
        NotFound(a, i, b, j);
        if left != vid {
          out := out + [left];
          outSize := outSize + 1;
        }
      }
      if left <= right {
        i := i + 1;
      }
      if right <= left {
        j := j + 1;
      }
    }
    while i < |a| && !limit.Stops(a[i])
      invariant i <= |a| && outSize == |out|
      invariant Remaining(out, a, i, b, vid) && Passed(a, i, b, j)
      invariant i < |a| ==> Stopped(a, i, b, j, limit)
      invariant Within(out, limit)
    {
      NotBeyond(a, i, b, j, limit);
      PassedAlone(a, i, b, j);
      WithinGrows(out, limit, a[i]);
      RemainingStep(out, a, i, b, vid);
      if a[i] != vid {
        out := out + [a[i]];
        outSize := outSize + 1;
      }
      i := i + 1;
    }
    SubtractDone(out, a, i, b, vid, limit);
    ListsSize(out, limit.Cut(Elements(a) - Elements(b) - {vid}));
  }

  // ----- bounds -----

  /** Linear up to 64 entries, bisecting beyond: the number of entries below upper. */
  method CountBelow(a: seq<nat>, upper: nat) returns (k: nat)
    requires Sorted(a)
    ensures k <= |a|
    ensures forall s :: 0 <= s < k ==> a[s] < upper
    ensures forall s :: k <= s < |a| ==> a[s] >= upper
  {
    k := 0;
    if |a| > 64 {
      var count := |a|;
      while count > 0
        invariant 0 <= count && k + count <= |a|
        invariant forall s :: 0 <= s < k ==> a[s] < upper
        invariant forall s :: k + count <= s < |a| ==> a[s] >= upper
        decreases count
      {
        var step := count / 2;
        var it := k + step;
        if a[it] < upper {
          k := it + 1;
          count := count - (step + 1);
        } else {
          count := step;
        }
      }
    } else {
      while k < |a| && a[k] < upper
        invariant k <= |a| && forall s :: 0 <= s < k ==> a[s] < upper
      {
        k := k + 1;
      }
    }
  }

  lemma {:induction false} FrontBelow(a: seq<nat>, k: nat, upper: nat)
    requires Sorted(a) && k <= |a|
    requires (forall s :: 0 <= s < k ==> a[s] < upper) && (forall s :: k <= s < |a| ==> a[s] >= upper)
    ensures Lists(a[..k], Upper(upper).Cut(Elements(a)))
  {
    forall x | x in a && x < upper ensures x in a[..k] {
      var s :| 0 <= s < |a| && a[s] == x;
      assert a[..k][s] == x;
    }
    assert Elements(a[..k]) == Upper(upper).Cut(Elements(a));
  }

  method BoundedBy(a: seq<nat>, upper: nat) returns (out: seq<nat>)
    requires Sorted(a)
    ensures Lists(out, Upper(upper).Cut(Elements(a)))
  {
    var k := CountBelow(a, upper);
    FrontBelow(a, k, upper);
    out := a[..k];
  }

  method BoundedCnt(a: seq<nat>, upper: nat) returns (k: nat)
    requires Sorted(a)
    ensures k == |Upper(upper).Cut(Elements(a))|
  {
    k := CountBelow(a, upper);
    FrontBelow(a, k, upper);
    ListsSize(a[..k], Upper(upper).Cut(Elements(a)));
  }

  lemma {:induction false} FoundAt(a: seq<nat>, k: nat, id: nat)
    requires Sorted(a) && k <= |a|
    requires (forall s :: 0 <= s < k ==> a[s] < id) && (forall s :: k <= s < |a| ==> a[s] >= id)
    ensures id in a <==> k < |a| && a[k] == id
    ensures k < |a| && a[k] == id ==> Lists(Erase(a, k), Elements(a) - {id})
  {
    if k < |a| && a[k] == id {
      TakenOut(a, k);
    }
    if id in a {
      var s: nat :| s < |a| && a[s] == id;
      NotAbove(a, k, s);
    }
  }

  lemma {:induction false} NotAbove(a: seq<nat>, k: nat, s: nat)
    requires Sorted(a) && k <= s < |a|
    ensures a[k] <= a[s]
  {
  }

  lemma {:induction false} TakenOut(a: seq<nat>, k: nat)
    requires Sorted(a) && k < |a|
    ensures Lists(Erase(a, k), Elements(a) - {a[k]})
  {
    hide Erase;
    var r := Erase(a, k);
    forall x: nat ensures x in Elements(r) <==> x in Elements(a) - {a[k]} {
      if x in r {
        var s: nat :| s < |r| && r[s] == x;
        assert a[if s < k then s else s + 1] == x;
      }
      if x in a && x != a[k] {
        var s: nat :| s < |a| && a[s] == x;
        assert r[if s < k then s else s - 1] == x;
      }
    }
  }

  method RemoveId(a: seq<nat>, id: nat) returns (out: seq<nat>)
    requires Sorted(a)
    ensures Lists(out, Elements(a) - {id})
  {
    var k := CountBelow(a, id);
    FoundAt(a, k, id);
    if k < |a| && a[k] == id {
      out := Erase(a, k);
    } else {
      assert Elements(a) - {id} == Elements(a);
      out := a;
    }
  }

  method RemoveCnt(a: seq<nat>, id: nat) returns (n: nat)
    requires Sorted(a)
    ensures n == |Elements(a) - {id}|
  {
    var k := CountBelow(a, id);
    FoundAt(a, k, id);
    DistinctSize(a);
    if k < |a| && a[k] == id {
      ListsSize(a[..k] + a[k + 1..], Elements(a) - {id});
      n := |a| - 1;
    } else {
      assert Elements(a) - {id} == Elements(a);
      n := |a|;
    }
  }
}
