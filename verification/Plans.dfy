/** create_plan: which vertex sets each loop of the compiled plan maintains. */
module Plans {
  import opened Counting
  import opened Patterns
  import opened Schedules
  import opened Closure
  import opened Ir

  /** The candidates for vertex vid, as far as loops 0..d determine them. */
  function SetOf(adj: Matrix, res: Matrix, vid: nat, d: nat): (op: SetIr)
    requires vid < |adj| == |res| && d < |adj[vid]| && d < |res[vid]|
    ensures op.Valid() && op.Depth() == d
  {
    SetIr(adj[vid][..d + 1], res[vid][..d + 1])
  }

  datatype PlanIr = PlanIr(n: nat, induced: bool, ops: seq<seq<SetIr>>, iter: seq<SetIr>)

  ghost predicate ServesVertex(op: SetIr, adj: Matrix, res: Matrix, d: nat, vid: nat)
    requires Square(adj, |adj|) && Square(res, |adj|) && vid < |adj| && d < |adj|
  {
    d < vid && op == SetOf(adj, res, vid, d) && Ones(op.edges) > 0
  }

  /** op is the loop-d set of some later vertex, and mentions an edge. */
  ghost predicate Serves(op: SetIr, adj: Matrix, res: Matrix, d: nat)
    requires Square(adj, |adj|) && Square(res, |adj|) && d < |adj|
  {
    exists vid: nat :: vid < |adj| && ServesVertex(op, adj, res, d, vid)
  }

  /** An unbounded twin comes before the set that is cut from it. */
  ghost predicate TwinsFirst(ops: seq<SetIr>) {
    forall i, j :: 0 <= i < j < |ops| && ops[i].Valid() && ops[i].Restricted() ==> ops[j] != ops[i].Unbounded()
  }

  ghost predicate LevelOf(ops: seq<SetIr>, adj: Matrix, res: Matrix, d: nat)
    requires Square(adj, |adj|) && Square(res, |adj|) && d < |adj|
  {
    && Distinct(ops) && TwinsFirst(ops)
    && forall op :: op in ops <==> Serves(op, adj, res, d)
  }

  ghost predicate Compiled(p: PlanIr, q: Query, res: Matrix)
    requires q.Valid() && Square(res, q.n)
  {
    && p.n == q.n >= 3 && p.induced == q.induced
    && |p.ops| == |p.iter| == q.n - 1
    && (forall d :: 0 <= d < q.n - 1 ==> LevelOf(p.ops[d], q.adj, res, d))
    && (forall d :: 0 <= d < q.n - 1 ==> p.iter[d] == SetOf(q.adj, res, d + 1, d) && Ones(p.iter[d].edges) > 0)
  }

  lemma {:induction false} IterIsListed(p: PlanIr, q: Query, res: Matrix, d: nat)
    requires q.Valid() && Square(res, q.n) && Compiled(p, q, res) && d < q.n - 1
    ensures p.iter[d] in p.ops[d]
  {
    assert LevelOf(p.ops[d], q.adj, res, d);
    assert ServesVertex(p.iter[d], q.adj, res, d, d + 1);
  }

  lemma {:induction false} CutServes(op: SetIr, adj: Matrix, res: Matrix, d: nat, e: nat)
    requires Square(adj, |adj|) && Square(res, |adj|) && e <= d < |adj| && Serves(op, adj, res, d)
    requires Ones(op.edges[..e + 1]) > 0
    ensures Serves(op.UpTo(e), adj, res, e)
  {
    var vid: nat :| vid < |adj| && ServesVertex(op, adj, res, d, vid);
    assert adj[vid][..d + 1][..e + 1] == adj[vid][..e + 1];
    assert res[vid][..d + 1][..e + 1] == res[vid][..e + 1];
    assert ServesVertex(op.UpTo(e), adj, res, e, vid);
  }

  lemma {:induction false} CompiledIsGood(p: PlanIr, q: Query, res: Matrix)
    requires q.Valid() && Square(res, q.n) && Compiled(p, q, res)
    ensures GoodOps(p.ops)
  {
    forall d | 0 <= d < |p.ops| ensures GoodLevel(p.ops, d) {
      LevelIsGood(p, q, res, d);
    }
  }

  lemma {:induction false} LevelIsGood(p: PlanIr, q: Query, res: Matrix, d: nat)
    requires q.Valid() && Square(res, q.n) && Compiled(p, q, res) && d < |p.ops|
    ensures GoodLevel(p.ops, d)
  {
    var ops := p.ops[d];
    assert LevelOf(ops, q.adj, res, d);
    forall t | 0 <= t < |ops| ensures ops[t].Valid() && ops[t].Depth() == d && Ones(ops[t].edges) > 0 {
      assert Serves(ops[t], q.adj, res, d);
    }
    forall t, e | 0 <= t < |ops| && 0 <= e < d && Ones(ops[t].edges[..e + 1]) > 0
      ensures ops[t].UpTo(e) in p.ops[e]
    {
      assert Serves(ops[t], q.adj, res, d);
      CutServes(ops[t], q.adj, res, d, e);
      assert LevelOf(p.ops[e], q.adj, res, e);
    }
  }

  // ----- sorting out duplicates -----

  /** Fewer edges first, then fewer restrictions. */
  predicate KeyLess(a: SetIr, b: SetIr) {
    Ones(a.edges) < Ones(b.edges) || (Ones(a.edges) == Ones(b.edges) && Ones(a.restricts) < Ones(b.restricts))
  }

  ghost predicate KeySorted(ops: seq<SetIr>) {
    forall i, j :: 0 <= i < j < |ops| ==> !KeyLess(ops[j], ops[i])
  }

  lemma {:induction false} SortedTwinsFirst(ops: seq<SetIr>)
    requires KeySorted(ops)
    ensures TwinsFirst(ops)
  {
    forall i, j | 0 <= i < j < |ops| && ops[i].Valid() && ops[i].Restricted() ensures ops[j] != ops[i].Unbounded() {
      OnesDropLast(ops[i].restricts);
    }
  }

  function Inserted(ops: seq<SetIr>, k: nat, op: SetIr): (r: seq<SetIr>)
    requires k <= |ops|
    ensures |r| == |ops| + 1
  {
    ops[..k] + [op] + ops[k..]
  }

  lemma {:induction false} InsertKeeps(ops: seq<SetIr>, k: nat, op: SetIr)
    requires k <= |ops| && Distinct(ops) && KeySorted(ops) && op !in ops
    requires forall t :: 0 <= t < k ==> !KeyLess(op, ops[t])
    requires k < |ops| ==> KeyLess(op, ops[k])
    ensures Distinct(Inserted(ops, k, op)) && KeySorted(Inserted(ops, k, op))
    ensures forall x :: x in Inserted(ops, k, op) <==> x in ops || x == op
  {
    hide KeyLess;
    var r := Inserted(ops, k, op);
    forall x ensures x in r <==> x in ops || x == op {
      assert ops == ops[..k] + ops[k..];
    }
    forall i, j | 0 <= i < j < |r| ensures r[i] != r[j] && !KeyLess(r[j], r[i]) {
      InsertedAt(ops, k, op, i);
      InsertedAt(ops, k, op, j);
      if i == k {
        InsertBefore(ops, k, op, j - 1);
      }
    }
  }

  lemma {:induction false} InsertedAt(ops: seq<SetIr>, k: nat, op: SetIr, i: nat)
    requires k <= |ops| && i <= |ops|
    ensures Inserted(ops, k, op)[i] == if i < k then ops[i] else if i == k then op else ops[i - 1]
  {
  }

  /** Everything from k on is no less than what was put in front of it. */
  lemma {:induction false} InsertBefore(ops: seq<SetIr>, k: nat, op: SetIr, b: nat)
    requires k <= b < |ops| && KeySorted(ops) && KeyLess(op, ops[k])
    ensures !KeyLess(ops[b], op)
  {
    assert k < b ==> !KeyLess(ops[b], ops[k]);
  }

  method SortUnique(raw: seq<SetIr>) returns (ops: seq<SetIr>)
    ensures Distinct(ops) && TwinsFirst(ops)
    ensures forall op :: op in ops <==> op in raw
  {
    hide KeyLess, KeySorted, TwinsFirst, Inserted;
    ops := [];
    NothingSorted();
    for t := 0 to |raw|
      invariant Distinct(ops) && KeySorted(ops)
      invariant forall op :: op in ops <==> op in raw[..t]
    {
      assert raw[..t + 1] == raw[..t] + [raw[t]];
      if raw[t] !in ops {
        var k := 0;
        while k < |ops| && !KeyLess(raw[t], ops[k])
          invariant 0 <= k <= |ops|
          invariant forall u :: 0 <= u < k ==> !KeyLess(raw[t], ops[u])
        {
          k := k + 1;
        }
        InsertKeeps(ops, k, raw[t]);
        ops := Inserted(ops, k, raw[t]);
      }
    }
    assert raw[..|raw|] == raw;
    SortedTwinsFirst(ops);
  }

  lemma {:induction false} NothingSorted()
    ensures KeySorted([])
  {
  }

  // ----- the plan -----

  method RawLevel(adj: Matrix, res: Matrix, d: nat) returns (raw: seq<SetIr>)
    requires Square(adj, |adj|) && Square(res, |adj|) && d < |adj|
    ensures forall op :: op in raw <==> Serves(op, adj, res, d)
  {
    raw := [];
    for vid := d + 1 to |adj|
      invariant forall op :: op in raw <==> exists w: nat :: w < vid && ServesVertex(op, adj, res, d, w)
    {
      var op := SetOf(adj, res, vid, d);
      if Ones(op.edges) > 0 {
        assert ServesVertex(op, adj, res, d, vid);
        raw := raw + [op];
      }
    }
  }

  method MakeLevel(adj: Matrix, res: Matrix, d: nat) returns (level: seq<SetIr>)
    requires Square(adj, |adj|) && Square(res, |adj|) && d < |adj|
    ensures LevelOf(level, adj, res, d)
  {
    hide Serves, TwinsFirst;
    var raw := RawLevel(adj, res, d);
    level := SortUnique(raw);
  }

  /** An iterated set without an edge would range over all vertices: no plan. */
  method CreatePlan(q: Query, pairs: seq<Pair>) returns (out: Option<PlanIr>, res: Matrix)
    requires q.Valid() && q.n >= 3 && InOrder(pairs, q.n)
    ensures Square(res, q.n) && Closed(res, pairs, q.n)
    ensures out.Some? <==> Connected(q.adj)
    ensures out.Some? ==> Compiled(out.value, q, res)
  {
    hide Closed, LevelOf, Ones, Nbrs;
    res := RestrictsToMatrix(pairs, q.n);
    var ops: seq<seq<SetIr>>, iter: seq<SetIr> := [], [];
    for d := 0 to q.n - 1
      invariant |ops| == |iter| == d
      invariant forall e :: 0 <= e < d ==> LevelOf(ops[e], q.adj, res, e)
      invariant forall e :: 0 <= e < d ==> iter[e] == SetOf(q.adj, res, e + 1, e) && Ones(iter[e].edges) > 0
      invariant forall i :: 1 <= i <= d ==> |Nbrs(q.adj, i)| > 0
    {
      var level := MakeLevel(q.adj, res, d);
      var next := SetOf(q.adj, res, d + 1, d);
      EdgeMeansNeighbour(q.adj, res, d);
      if Ones(next.edges) == 0 {
        assert |Nbrs(q.adj, d + 1)| == 0;
        return None, res;
      }
      ops, iter := ops + [level], iter + [next];
    }
    out := Some(PlanIr(q.n, q.induced, ops, iter));
  }

  lemma {:induction false} EdgeMeansNeighbour(adj: Matrix, res: Matrix, d: nat)
    requires Square(adj, |adj|) && Square(res, |adj|) && d + 1 < |adj|
    ensures Ones(SetOf(adj, res, d + 1, d).edges) > 0 <==> |Nbrs(adj, d + 1)| > 0
  {
    hide Nbrs, Ones;
    var row := adj[d + 1][..d + 1];
    SomeOne(row);
    var r := Nbrs(adj, d + 1);
    if |r| > 0 {
      assert row[r[0]];
    }
    if i :| 0 <= i < |row| && row[i] {
      assert adj[d + 1][i] && i in r;
    }
  }
}
