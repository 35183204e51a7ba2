/** get_indices: where the iterated vertices sit in a minigraph's vertex list. */
module Positions {
  import opened Counting
  import opened Patterns
  import opened SortedLists

  ghost function At(vertices: seq<nat>, iter: seq<nat>, n: nat): (s: set<nat>)
    requires n <= |vertices|
    ensures forall p: nat :: p in s <==> p < n && vertices[p] in iter
  {
    set p | p in Below(n) && vertices[p] in iter
  }

  /** out lists, in order, the positions whose vertex is iterated. */
  ghost predicate Locates(out: seq<nat>, vertices: seq<nat>, iter: seq<nat>) {
    Lists(out, At(vertices, iter, |vertices|))
  }

  /** For a sub-list of the vertices, position j belongs to the j-th iterated vertex. */
  lemma {:induction false} LocatesEach(out: seq<nat>, vertices: seq<nat>, iter: seq<nat>)
    requires Sorted(vertices) && Sorted(iter) && Elements(iter) <= Elements(vertices)
    requires Locates(out, vertices, iter)
    ensures |out| == |iter| && forall j :: 0 <= j < |out| ==> out[j] < |vertices| && vertices[out[j]] == iter[j]
    decreases |iter|
  {
    forall p | p in out ensures p < |vertices| && vertices[p] in iter {
      assert p in Elements(out);
    }
    if |iter| == 0 {
      assert At(vertices, iter, |vertices|) == {};
      ListsSize(out, {});
    } else {
      var x := iter[|iter| - 1];
      assert x in Elements(iter);
      var p :| 0 <= p < |vertices| && vertices[p] == x;
      assert p in Elements(out);
      var last := |out| - 1;
      LastIsGreatest(out, vertices, iter, p);
      var shorter := iter[..|iter| - 1];
      assert Elements(shorter) <= Elements(iter);
      forall q ensures q in out[..last] <==> q in At(vertices, shorter, |vertices|) {
        LocatesButLast(out, vertices, iter, q);
      }
      assert Elements(out[..last]) == At(vertices, shorter, |vertices|);
      LocatesEach(out[..last], vertices, shorter);
    }
  }

  lemma {:induction false} LastIsGreatest(out: seq<nat>, vertices: seq<nat>, iter: seq<nat>, p: nat)
    requires Sorted(vertices) && Sorted(iter) && Locates(out, vertices, iter) && |iter| > 0
    requires p < |vertices| && vertices[p] == iter[|iter| - 1] && p in out
    ensures |out| > 0 && out[|out| - 1] == p
  {
    var last := out[|out| - 1];
    assert last in Elements(out);
    var j :| 0 <= j < |iter| && iter[j] == vertices[last];
    var u :| 0 <= u < |out| && out[u] == p;
    InOrderAt(out, u, |out| - 1);
    InOrderAt(iter, j, |iter| - 1);
    InOrderAt(vertices, last, p);
  }

  lemma {:induction false} InOrderAt(s: seq<nat>, i: nat, j: nat)
    requires Sorted(s) && i < |s| && j < |s|
    ensures s[i] <= s[j] <==> i <= j
  {
  }

  lemma {:induction false} LocatesButLast(out: seq<nat>, vertices: seq<nat>, iter: seq<nat>, q: nat)
    requires Sorted(vertices) && Sorted(iter) && Locates(out, vertices, iter) && |iter| > 0 && |out| > 0
    requires out[|out| - 1] < |vertices| && vertices[out[|out| - 1]] == iter[|iter| - 1]
    ensures q in out[..|out| - 1] <==> q in At(vertices, iter[..|iter| - 1], |vertices|)
  {
    var p, shorter := out[|out| - 1], iter[..|iter| - 1];
    assert iter == shorter + [iter[|iter| - 1]];
    assert out == out[..|out| - 1] + [p];
    assert q in out <==> q in Elements(out);
    if q in out[..|out| - 1] {
      assert q < p;
      assert vertices[q] < vertices[p];
    }
    if q in At(vertices, shorter, |vertices|) {
      var j :| 0 <= j < |shorter| && shorter[j] == vertices[q];
      assert iter[j] < iter[|iter| - 1];
    }
  }

  // ----- the three strategies -----

  /** Same buffer: one list is the front of the other, positions are 0, 1, ... */
  method Identity(vertices: seq<nat>, iter: seq<nat>) returns (out: seq<nat>)
    requires Sorted(vertices) && Sorted(iter) && (iter <= vertices || vertices <= iter)
    ensures Locates(out, vertices, iter)
  {
    out := [];
    var outSize := if |vertices| < |iter| then |vertices| else |iter|;
    for i := 0 to outSize
      invariant |out| == i && forall k :: 0 <= k < i ==> out[k] == k
    {
      out := out + [i];
    }
    forall p: nat ensures p in out <==> p in At(vertices, iter, |vertices|) {
      if p < outSize {
        assert out[p] == p && iter[p] == vertices[p];
      }
      if p in At(vertices, iter, |vertices|) {
        var j :| 0 <= j < |iter| && iter[j] == vertices[p];
        if iter <= vertices {
          assert vertices[j] == vertices[p];
          InOrderAt(vertices, j, p);
          InOrderAt(vertices, p, j);
        }
        assert p < outSize;
      }
    }
    assert Elements(out) == At(vertices, iter, |vertices|);
  }

  /** Bisects list[begin..end): the first position not below val. */
  method BinarySearch(list: seq<nat>, begin0: nat, end: nat, val: nat) returns (itr: nat)
    requires Sorted(list) && begin0 <= end <= |list|
    ensures begin0 <= itr <= end
    ensures forall p :: begin0 <= p < itr ==> list[p] < val
    ensures forall p :: itr <= p < end ==> list[p] >= val
  {
    var begin, count := begin0, end - begin0;
    itr := begin;
    while count > 0
      invariant begin0 <= begin && 0 <= count && begin + count <= end
      invariant count == 0 ==> itr == begin
      invariant forall p :: begin0 <= p < begin ==> list[p] < val
      invariant forall p :: begin + count <= p < end ==> list[p] >= val
      decreases count
    {
      itr := begin;
      var step := count / 2;
      itr := itr + step;
      if list[itr] < val {
        itr := itr + 1;
        begin := itr;
        count := count - (step + 1);
      } else {
        count := step;
      }
    }
  }

  /** Positions below p are settled, for vertices not above the iterated ones seen. */
  ghost predicate Found(out: seq<nat>, vertices: seq<nat>, iter: seq<nat>, p: nat) {
    p <= |vertices| && Lists(out, At(vertices, iter, p))
  }

  lemma {:induction false} SkipTo(out: seq<nat>, vertices: seq<nat>, iter: seq<nat>, p: nat, q: nat)
    requires Found(out, vertices, iter, p) && p <= q <= |vertices|
    requires forall a :: p <= a < q ==> vertices[a] !in iter
    ensures Found(out, vertices, iter, q)
  {
    assert At(vertices, iter, q) == At(vertices, iter, p);
  }

  lemma {:induction false} TakeAt(out: seq<nat>, vertices: seq<nat>, iter: seq<nat>, p: nat)
    requires Found(out, vertices, iter, p) && p < |vertices| && vertices[p] in iter
    ensures Found(out + [p], vertices, iter, p + 1)
  {
    forall k | 0 <= k < |out| ensures out[k] < p {
      assert out[k] in Elements(out);
    }
    assert Elements(out + [p]) == At(vertices, iter, p + 1);
  }

  /** The first j iterated vertices are all below the vertices from position p on. */
  ghost predicate Behind(vertices: seq<nat>, iter: seq<nat>, p: nat, j: nat) {
    forall a, b :: p <= a < |vertices| && 0 <= b < j && b < |iter| ==> iter[b] < vertices[a]
  }

  lemma {:induction false} BehindMoves(vertices: seq<nat>, iter: seq<nat>, p: nat, j: nat, q: nat, k: nat)
    requires Sorted(vertices) && Behind(vertices, iter, p, j) && p <= q && j < |iter| && j <= k <= j + 1
    requires k == j + 1 && q < |vertices| ==> iter[j] < vertices[q]
    ensures Behind(vertices, iter, q, k)
  {
    forall a | q <= a < |vertices| ensures vertices[q] <= vertices[a] {}
  }

  /** Between two iterated vertices nothing is iterated. */
  lemma {:induction false} GapIsFree(vertices: seq<nat>, iter: seq<nat>, p: nat, q: nat, j: nat)
    requires Sorted(vertices) && Sorted(iter) && p <= q <= |vertices| && j <= |iter|
    requires Behind(vertices, iter, p, j)
    requires forall a :: p <= a < q && j < |iter| ==> vertices[a] < iter[j]
    ensures forall a :: p <= a < q ==> vertices[a] !in iter
  {
    forall a | p <= a < q ensures vertices[a] !in iter {
      forall b | 0 <= b < |iter| ensures iter[b] != vertices[a] {
        assert b > j ==> iter[j] < iter[b];
      }
    }
  }

  lemma {:induction false} NoneYet(vertices: seq<nat>, iter: seq<nat>)
    ensures Found([], vertices, iter, 0) && Behind(vertices, iter, 0, 0)
  {
    assert At(vertices, iter, 0) == {};
  }

  lemma {:induction false} AllFound(out: seq<nat>, vertices: seq<nat>, iter: seq<nat>)
    requires Found(out, vertices, iter, |vertices|)
    ensures Locates(out, vertices, iter)
  {
  }

  method ByBinarySearch(vertices: seq<nat>, iter: seq<nat>) returns (out: seq<nat>)
    requires Sorted(vertices) && Sorted(iter)
    ensures Locates(out, vertices, iter)
  {
    hide Found, Behind, At;
    NoneYet(vertices, iter);
    out := [];
    var itr, idx := 0, 0;
    while idx < |iter| && itr < |vertices|
      invariant idx <= |iter| && itr <= |vertices|
      invariant Found(out, vertices, iter, itr)
      invariant Behind(vertices, iter, itr, idx)
    {
      var id := iter[idx];
      ghost var from := itr;
      var found := BinarySearch(vertices, itr, |vertices|, id);
      GapIsFree(vertices, iter, itr, found, idx);
      SkipTo(out, vertices, iter, itr, found);
      itr := found;
      if itr != |vertices| && id == vertices[itr] {
        TakeAt(out, vertices, iter, itr);
        out := out + [itr];
        itr := itr + 1;
      }
      BehindMoves(vertices, iter, from, idx, itr, idx + 1);
      idx := idx + 1;
    }
    GapIsFree(vertices, iter, itr, |vertices|, idx);
    SkipTo(out, vertices, iter, itr, |vertices|);
    AllFound(out, vertices, iter);
  }

  method ByMerge(vertices: seq<nat>, iter: seq<nat>) returns (out: seq<nat>)
    requires Sorted(vertices) && Sorted(iter)
    ensures Locates(out, vertices, iter)
  {
    hide Found, Behind, At;
    NoneYet(vertices, iter);
    out := [];
    var l, r := 0, 0;
    while l < |vertices| && r < |iter|
      invariant l <= |vertices| && r <= |iter|
      invariant Found(out, vertices, iter, l)
      invariant Behind(vertices, iter, l, r)
      decreases |vertices| + |iter| - l - r
    {
      var left, right := vertices[l], iter[r];
      BehindMoves(vertices, iter, l, r, if left <= right then l + 1 else l, if right <= left then r + 1 else r);
      if left == right {
        TakeAt(out, vertices, iter, l);
        out := out + [l];
      } else if left < right {
        GapIsFree(vertices, iter, l, l + 1, r);
        SkipTo(out, vertices, iter, l, l + 1);
      }
      if left <= right {
        l := l + 1;
      }
      if right <= left {
        r := r + 1;
      }
    }
    GapIsFree(vertices, iter, l, |vertices|, r);
    SkipTo(out, vertices, iter, l, |vertices|);
    AllFound(out, vertices, iter);
  }

  /** All strategies name the same positions. */
  method GetIndices(vertices: seq<nat>, iter: seq<nat>, sameBegin: bool) returns (out: seq<nat>)
    requires Sorted(vertices) && Sorted(iter)
    requires sameBegin ==> iter <= vertices || vertices <= iter
    ensures Locates(out, vertices, iter)
  {
    if sameBegin {
      out := Identity(vertices, iter);
    } else if |iter| * 50 < |vertices| {
      out := ByBinarySearch(vertices, iter);
    } else {
      out := ByMerge(vertices, iter);
    }
  }
}
