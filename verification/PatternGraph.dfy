/** The small directed graph of pattern.cpp, used to detect contradictory restrictions. */
module PatternGraph {
  import opened Counting
  import opened Patterns

  ghost predicate Descends(m: Matrix, r: seq<nat>)
    requires Square(m, |m|)
  {
    |r| == |m| && forall i, j :: 0 <= i < |m| && 0 <= j < |m| && m[i][j] ==> r[i] > r[j]
  }

  /** No directed cycle: some numbering decreases along every arrow. */
  ghost predicate Acyclic(m: Matrix)
    requires Square(m, |m|)
  {
    exists r :: Descends(m, r)
  }

  function NoEdges(n: nat): (m: Matrix)
    ensures Square(m, n)
    ensures forall i, j :: 0 <= i < n && 0 <= j < n ==> !m[i][j]
  {
    seq(n, i => seq(n, j => false))
  }

  function SetEntry(m: Matrix, x: nat, y: nat, b: bool): (r: Matrix)
    requires Square(m, |m|) && x < |m| && y < |m|
    ensures Square(r, |m|)
    ensures forall i, j :: 0 <= i < |m| && 0 <= j < |m| ==> r[i][j] == if i == x && j == y then b else m[i][j]
  {
    m[x := m[x][y := b]]
  }

  /** Arrows into j from outside `done`. */
  ghost function Preds(m: Matrix, j: nat, done: set<nat>): set<nat>
    requires Square(m, |m|) && j < |m|
  {
    set i: nat | i in Below(|m|) && i !in done && m[i][j]
  }

  /** s holds vertex 0 and whatever its members point to. */
  ghost predicate ClosedFrom(m: Matrix, s: set<nat>)
    requires Square(m, |m|)
  {
    0 in s && forall a, b :: a in s && a < |m| && 0 <= b < |m| && m[a][b] ==> b in s
  }

  /** Every set closed under the edges that holds vertex 0 holds v. */
  ghost predicate Reached(m: Matrix, v: nat)
    requires Square(m, |m|)
  {
    forall s :: ClosedFrom(m, s) ==> v in s
  }

  ghost predicate IsConnected(m: Matrix)
    requires Square(m, |m|)
  {
    forall v: nat :: v < |m| ==> Reached(m, v)
  }

  ghost predicate Found(m: Matrix, que: seq<nat>)
    requires Square(m, |m|)
  {
    Distinct(que) && forall k :: 0 <= k < |que| ==> que[k] < |m| && Reached(m, que[k])
  }

  /** The neighbours of x below k are queued. */
  ghost predicate RowQueued(m: Matrix, x: nat, k: nat, que: seq<nat>)
    requires Square(m, |m|)
  {
    x < |m| && k <= |m| && forall b: nat :: b < k && m[x][b] ==> b in que
  }

  /** Queues the unvisited neighbours of the vertex at `head`. */
  method Visit(m: Matrix, que0: seq<nat>, head: nat) returns (que: seq<nat>)
    requires Square(m, |m|) && head < |que0| && Found(m, que0)
    ensures que0 <= que && Found(m, que) && RowQueued(m, que0[head], |m|, que)
  {
    hide Reached;
    que := que0;
    var x := que[head];
    for i := 0 to |m|
      invariant que0 <= que && Found(m, que) && RowQueued(m, x, i, que)
    {
      if m[x][i] && i !in que {
        ReachedNext(m, x, i);
        que := que + [i];
      }
    }
  }

  /** The rows of the first `head` entries are queued; growing the queue keeps that. */
  ghost predicate Explored(m: Matrix, que: seq<nat>, head: nat)
    requires Square(m, |m|)
  {
    head <= |que| && forall k :: 0 <= k < head ==> RowQueued(m, que[k], |m|, que)
  }

  lemma {:induction false} ExploredNext(m: Matrix, que0: seq<nat>, que: seq<nat>, head: nat)
    requires Square(m, |m|) && Explored(m, que0, head) && que0 <= que && head < |que0|
    requires RowQueued(m, que0[head], |m|, que)
    ensures Explored(m, que, head + 1)
  {
    forall k | 0 <= k < head + 1 ensures RowQueued(m, que[k], |m|, que) {
      assert que[k] == que0[k];
      assert k < head ==> RowQueued(m, que0[k], |m|, que0);
    }
  }

  /** When everything is explored, the queue is all that vertex 0 reaches. */
  lemma {:induction false} ExploredIsAll(m: Matrix, que: seq<nat>, v: nat)
    requires Square(m, |m|) && Found(m, que) && Explored(m, que, |que|) && 0 in que
    ensures v in que <==> Reached(m, v)
  {
    if v in que {
      var k :| 0 <= k < |que| && que[k] == v;
    }
    if Reached(m, v) {
      var s := Elements(que);
      forall a, b | a in s && a < |m| && 0 <= b < |m| && m[a][b] ensures b in s {
        var k :| 0 <= k < |que| && que[k] == a;
        assert RowQueued(m, que[k], |m|, que);
      }
      assert ClosedFrom(m, s);
    }
  }

  lemma {:induction false} ReachedNext(m: Matrix, x: nat, i: nat)
    requires Square(m, |m|) && x < |m| && i < |m| && m[x][i] && Reached(m, x)
    ensures Reached(m, i)
  {
    forall s | ClosedFrom(m, s) ensures i in s {
      assert x in s;
    }
  }

  class Pattern {
    const size: nat
    var adjMat: Matrix

    ghost predicate Valid()
      reads this
    {
      Square(adjMat, size)
    }

    constructor (n: nat)
      ensures Valid() && size == n && adjMat == NoEdges(n)
    {
      size := n;
      adjMat := NoEdges(n);
    }

    constructor Copy(p: Pattern)
      requires p.Valid()
      ensures Valid() && size == p.size && adjMat == p.adjMat
    {
      size := p.size;
      adjMat := p.adjMat;
    }

    method AddOrderedEdge(x: nat, y: nat)
      requires Valid() && x < size && y < size
      modifies this
      ensures Valid() && adjMat == SetEntry(old(adjMat), x, y, true)
    {
      adjMat := SetEntry(adjMat, x, y, true);
    }

    method AddEdge(x: nat, y: nat)
      requires Valid() && x < size && y < size
      modifies this
      ensures Valid() && adjMat == SetEntry(SetEntry(old(adjMat), x, y, true), y, x, true)
    {
      adjMat := SetEntry(adjMat, x, y, true);
      adjMat := SetEntry(adjMat, y, x, true);
    }

    method DelEdge(x: nat, y: nat)
      requires Valid() && x < size && y < size
      modifies this
      ensures Valid() && adjMat == SetEntry(SetEntry(old(adjMat), x, y, false), y, x, false)
    {
      adjMat := SetEntry(adjMat, x, y, false);
      adjMat := SetEntry(adjMat, y, x, false);
    }

    /** Breadth-first search from vertex 0. */
    method CheckConnected() returns (connected: bool)
      requires Valid() && size > 0
      ensures connected <==> IsConnected(adjMat)
    {
      var m := adjMat;
      var que: seq<nat> := [0];
      var head := 0;
      while head < |que|
        invariant 0 <= head <= |que| && 0 in que
        invariant Found(m, que) && Explored(m, que, head)
        decreases size - head
      {
        QueueFits(que, size);
        var before := que;
        que := Visit(m, que, head);
        ExploredNext(m, before, que, head);
        head := head + 1;
      }
      connected := true;
      for i := 0 to size
        invariant connected <==> forall v: nat :: v < i ==> Reached(m, v)
      {
        ExploredIsAll(m, que, i);
        connected := connected && i in que;
      }
    }

    /** Kahn's algorithm: repeatedly retire a vertex that no live arrow enters. */
    method IsDag() returns (dag: bool)
      requires Valid()
      ensures dag <==> Acyclic(adjMat)
    {
      var m := adjMat;
      var degree := InDegrees();
      var que: seq<nat> := [];
      for i := 0 to size
        invariant Distinct(que)
        invariant forall v: nat :: v in que <==> v < i && degree[v] == 0
      {
        if degree[i] == 0 {
          assert i !in que;
          que := que + [i];
        }
      }
      assert Elements(que[..0]) == {};
      assert Ranked(m, que) by {
        forall v | v in que ensures Preds(m, v, {}) == {} {}
        RankedInitially(m, que);
      }
      var head := 0;
      while head < |que|
        invariant 0 <= head <= |que|
        invariant Counted(m, degree, que, Elements(que[..head]))
        invariant Ranked(m, que)
        decreases size - head
      {
        QueueFits(que, size);
        degree, que := Retire(m, degree, que, head);
        head := head + 1;
      }
      assert que[..head] == que;
      QueueFits(que, size);
      if |que| == size {
        RankedIsAcyclic(m, que);
      } else {
        StuckIsCyclic(m, que);
      }
      dag := |que| == size;
    }

    method InDegrees() returns (degree: seq<int>)
      requires Valid()
      ensures |degree| == size
      ensures forall v :: 0 <= v < size ==> degree[v] == |Preds(adjMat, v, {})|
    {
      hide PredsBelow, Preds;
      degree := seq(size, _ => 0);
      forall v | 0 <= v < size ensures |PredsBelow(adjMat, v, 0)| == 0 {
        NoPreds(adjMat, v);
      }
      for i := 0 to size
        invariant |degree| == size
        invariant forall v :: 0 <= v < size ==> degree[v] == |PredsBelow(adjMat, v, i)|
      {
        for j := 0 to size
          invariant |degree| == size
          invariant forall v :: 0 <= v < size ==> degree[v] == |PredsBelow(adjMat, v, if v < j then i + 1 else i)|
        {
          CountPred(adjMat, j, i);
          if adjMat[i][j] {
            degree := degree[j := degree[j] + 1];
          }
        }
      }
      forall v | 0 <= v < size ensures degree[v] == |Preds(adjMat, v, {})| {
        AllPreds(adjMat, v);
      }
    }
  }

  /** The queue holds the vertices of live in-degree zero; `done` are retired. */
  ghost predicate Counted(m: Matrix, degree: seq<int>, que: seq<nat>, done: set<nat>)
    requires Square(m, |m|)
  {
    && |degree| == |m| && Distinct(que)
    && (forall v: nat :: v in que <==> v < |m| && degree[v] == 0)
    && (forall v: nat :: v < |m| ==> degree[v] == |Preds(m, v, done)|)
  }

  ghost predicate HalfCounted(m: Matrix, degree: seq<int>, que: seq<nat>, before: set<nat>, after: set<nat>, j: nat)
    requires Square(m, |m|)
  {
    && |degree| == |m| && Distinct(que)
    && (forall v: nat :: v in que <==> v < |m| && degree[v] == 0)
    && (forall v: nat :: v < |m| ==> degree[v] == |Preds(m, v, if v < j then after else before)|)
  }

  lemma {:induction false} HalfStep(m: Matrix, degree: seq<int>, que: seq<nat>, before: set<nat>, x: nat, j: nat)
    requires Square(m, |m|) && x < |m| && j < |m| && x !in before
    requires HalfCounted(m, degree, que, before, before + {x}, j)
    ensures !m[x][j] ==> HalfCounted(m, degree, que, before, before + {x}, j + 1)
    ensures m[x][j] ==> degree[j] > 0 && HalfCounted(m, degree[j := degree[j] - 1],
      if degree[j] == 1 then que + [j] else que, before, before + {x}, j + 1)
    ensures m[x][j] && degree[j] == 1 ==> Preds(m, j, before + {x}) == {}
  {
    RetireOne(m, j, before, x);
  }

  /** One pass over the arrows that leave the vertex at the head of the queue. */
  method Retire(m: Matrix, degree0: seq<int>, que0: seq<nat>, head: nat) returns (degree: seq<int>, que: seq<nat>)
    requires Square(m, |m|) && head < |que0|
    requires Counted(m, degree0, que0, Elements(que0[..head])) && Ranked(m, que0)
    ensures que0 <= que
    ensures Counted(m, degree, que, Elements(que[..head + 1])) && Ranked(m, que)
  {
    degree, que := degree0, que0;
    var x := que[head];
    ghost var before := Elements(que[..head]);
    assert Elements(que[..head + 1]) == before + {x} by {
      assert que[..head + 1] == que[..head] + [x];
    }
    for j := 0 to |m|
      invariant que0 <= que && Ranked(m, que)
      invariant HalfCounted(m, degree, que, before, before + {x}, j)
    {
      HalfStep(m, degree, que, before, x, j);
      if m[x][j] {
        degree := degree[j := degree[j] - 1];
        if degree[j] == 0 {
          assert que[..head + 1] == que0[..head + 1];
          RankedExtends(m, que, head + 1, j);
          que := que + [j];
        }
      }
    }
    assert que[..head + 1] == que0[..head + 1];
  }

  ghost function PredsBelow(m: Matrix, j: nat, k: nat): set<nat>
    requires Square(m, |m|) && j < |m| && k <= |m|
  {
    set i: nat | i in Below(k) && m[i][j]
  }

  lemma {:induction false} NoPreds(m: Matrix, j: nat)
    requires Square(m, |m|) && j < |m|
    ensures |PredsBelow(m, j, 0)| == 0
  {
    assert PredsBelow(m, j, 0) == {};
  }

  lemma {:induction false} AllPreds(m: Matrix, j: nat)
    requires Square(m, |m|) && j < |m|
    ensures PredsBelow(m, j, |m|) == Preds(m, j, {})
  {
  }

  lemma {:induction false} CountPred(m: Matrix, j: nat, k: nat)
    requires Square(m, |m|) && j < |m| && k < |m|
    ensures |PredsBelow(m, j, k + 1)| == |PredsBelow(m, j, k)| + if m[k][j] then 1 else 0
  {
    if m[k][j] {
      assert PredsBelow(m, j, k + 1) == PredsBelow(m, j, k) + {k};
    } else {
      assert PredsBelow(m, j, k + 1) == PredsBelow(m, j, k);
    }
  }

  lemma {:induction false} RetireOne(m: Matrix, j: nat, done: set<nat>, x: nat)
    requires Square(m, |m|) && j < |m| && x < |m| && x !in done
    ensures |Preds(m, j, done + {x})| == |Preds(m, j, done)| - if m[x][j] then 1 else 0
    ensures m[x][j] ==> |Preds(m, j, done)| > 0
  {
    if m[x][j] {
      assert Preds(m, j, done) == Preds(m, j, done + {x}) + {x};
    } else {
      assert Preds(m, j, done) == Preds(m, j, done + {x});
    }
  }

  lemma {:induction false} QueueFits(que: seq<nat>, n: nat)
    requires Distinct(que) && forall v :: v in que ==> v < n
    ensures |que| <= n
    ensures |que| == n ==> forall v: nat :: v < n ==> v in que
    ensures |que| < n ==> exists v: nat :: v < n && v !in que
  {
    DistinctSize(que);
    assert Elements(que) <= Below(n);
    SubsetSize(Elements(que), Below(n));
    if |que| < n {
      assert Elements(que) != Below(n);
      var v :| v in Below(n) && v !in Elements(que);
    } else {
      forall v: nat | v < n ensures v in que {
        assert v in Below(n);
        assert v in Elements(que);
      }
    }
  }

  /** Every arrow into a queued vertex starts earlier in the queue. */
  ghost predicate Ranked(m: Matrix, que: seq<nat>)
    requires Square(m, |m|)
  {
    && (forall t :: 0 <= t < |que| ==> que[t] < |m|)
    && (forall t, i: nat :: 0 <= t < |que| && i < |m| ==> EntersLater(m, que, t, i))
  }

  ghost predicate EntersLater(m: Matrix, que: seq<nat>, t: nat, i: nat)
    requires Square(m, |m|) && t < |que| && que[t] < |m| && i < |m|
  {
    m[i][que[t]] ==> i in que[..t]
  }

  lemma {:induction false} RankedInitially(m: Matrix, que: seq<nat>)
    requires Square(m, |m|)
    requires forall v :: v in que ==> v < |m| && Preds(m, v, {}) == {}
    ensures Ranked(m, que)
  {
    forall t | 0 <= t < |que| ensures que[t] < |m| {
      assert que[t] in que;
    }
    forall t, i: nat | 0 <= t < |que| && i < |m| ensures EntersLater(m, que, t, i) {
      assert que[t] in que && i in Below(|m|);
      assert i !in Preds(m, que[t], {});
    }
  }

  lemma {:induction false} RankedExtends(m: Matrix, que: seq<nat>, head: nat, j: nat)
    requires Square(m, |m|) && Ranked(m, que) && head <= |que| && j < |m|
    requires Preds(m, j, Elements(que[..head])) == {}
    ensures Ranked(m, que + [j])
  {
    var next := que + [j];
    forall t, i: nat | 0 <= t < |next| && i < |m| ensures EntersLater(m, next, t, i) {
      if t < |que| {
        assert EntersLater(m, que, t, i);
        assert next[..t] == que[..t] && next[t] == que[t];
      } else if m[i][j] {
        assert i in Below(|m|);
        assert i !in Preds(m, j, Elements(que[..head]));
        assert i in que[..head] && next[..t] == que;
      }
    }
  }

  ghost function Position(que: seq<nat>, v: nat): (k: nat)
    requires v in que
    ensures k < |que| && que[k] == v
  {
    var k :| 0 <= k < |que| && que[k] == v;
    k
  }

  lemma {:induction false} RankedIsAcyclic(m: Matrix, que: seq<nat>)
    requires Square(m, |m|) && Ranked(m, que) && Distinct(que)
    requires forall v: nat :: v < |m| ==> v in que
    ensures Acyclic(m)
  {
    var r := seq(|m|, v requires 0 <= v < |m| => (|que| - Position(que, v)) as nat);
    forall i, j | 0 <= i < |m| && 0 <= j < |m| && m[i][j] ensures r[i] > r[j] {
      var t := Position(que, j);
      assert que[t] == j && EntersLater(m, que, t, i);
      var s :| 0 <= s < t && que[s] == i;
      assert Position(que, i) == s;
    }
    assert Descends(m, r);
  }

  lemma {:induction false} HighestOf(s: set<nat>, r: seq<nat>) returns (u: nat)
    requires s != {} && forall v :: v in s ==> v < |r|
    ensures u in s && forall v :: v in s ==> r[v] <= r[u]
    decreases |s|
  {
    var w :| w in s;
    if s == {w} {
      return w;
    }
    u := HighestOf(s - {w}, r);
    if r[w] > r[u] {
      u := w;
    }
  }

  lemma {:induction false} StuckIsCyclic(m: Matrix, que: seq<nat>)
    requires Square(m, |m|)
    requires exists v: nat :: v < |m| && v !in que
    requires forall v: nat :: v < |m| && v !in que ==> |Preds(m, v, Elements(que))| > 0
    ensures !Acyclic(m)
  {
    if Acyclic(m) {
      var r :| Descends(m, r);
      var u := TopIsFree(m, que, r);
    }
  }

  lemma {:induction false} TopIsFree(m: Matrix, que: seq<nat>, r: seq<nat>) returns (u: nat)
    requires Square(m, |m|) && Descends(m, r)
    requires exists v: nat :: v < |m| && v !in que
    ensures u < |m| && u !in que && Preds(m, u, Elements(que)) == {}
  {
    var stuck := set v: nat | v in Below(|m|) && v !in que;
    var w: nat :| w < |m| && w !in que;
    assert w in stuck;
    u := HighestOf(stuck, r);
    forall p | p in Preds(m, u, Elements(que)) ensures p in stuck && r[p] > r[u] {}
  }
}
