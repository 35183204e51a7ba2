/** Intermediate vertex sets of the compiled loops, and the scans that find a set to
    compute another one from. A set is identified by its bits, so ids are not needed. */
module Ir {
  import opened Counting

  datatype Option<T> = None | Some(value: T)

  function Ones(b: seq<bool>): (k: nat)
    ensures k <= |b|
  {
    if |b| == 0 then 0 else Ones(b[..|b| - 1]) + if b[|b| - 1] then 1 else 0
  }

  /** Bit i of `edges` asks for adjacency to the vertex of loop i, bit i of
      `restricts` for a smaller id. */
  datatype SetIr = SetIr(edges: seq<bool>, restricts: seq<bool>) {
    predicate Valid() {
      |edges| == |restricts| > 0
    }

    function Depth(): nat
      requires Valid()
    {
      |edges| - 1
    }

    /** Only the conditions of loops 0..d. */
    function UpTo(d: nat): (r: SetIr)
      requires Valid() && d < |edges|
      ensures r.Valid() && r.Depth() == d
    {
      SetIr(edges[..d + 1], restricts[..d + 1])
    }

    function Restricted(): bool
      requires Valid()
    {
      restricts[Depth()]
    }

    /** The same set without the bound of its own loop. */
    function Unbounded(): (r: SetIr)
      requires Valid()
      ensures r.Valid() && r.Depth() == Depth()
    {
      SetIr(edges, restricts[Depth() := false])
    }
  }

  /** A minigraph: rows of the vertices in one set, intersected with another set. */
  datatype MgIr = MgIr(vertices: SetIr, intersect: SetIr) {
    predicate Valid() {
      vertices.Valid() && intersect.Valid() && vertices.Depth() == intersect.Depth()
    }

    function Depth(): nat
      requires Valid()
    {
      vertices.Depth()
    }
  }

  /** a asks for no more than b does. */
  predicate SupersetOf(a: SetIr, b: SetIr, induced: bool) {
    && a.Valid() && b.Valid() && |a.edges| <= |b.edges|
    && (forall i :: 0 <= i < |a.edges| ==> if induced then a.edges[i] == b.edges[i] else a.edges[i] ==> b.edges[i])
    && (forall i :: 0 <= i < |a.edges| ==> a.restricts[i] ==> b.restricts[i])
  }

  lemma {:induction false} OnesSubset(a: seq<bool>, b: seq<bool>)
    requires |a| == |b| && forall i :: 0 <= i < |a| ==> a[i] ==> b[i]
    ensures Ones(a) <= Ones(b)
    ensures Ones(a) == Ones(b) ==> a == b
  {
    if |a| > 0 {
      var n := |a| - 1;
      OnesSubset(a[..n], b[..n]);
      assert a == a[..n] + [a[n]] && b == b[..n] + [b[n]];
    }
  }

  lemma {:induction false} SomeOne(b: seq<bool>)
    ensures Ones(b) > 0 <==> exists i :: 0 <= i < |b| && b[i]
  {
    if |b| > 0 {
      var n := |b| - 1;
      SomeOne(b[..n]);
      if i :| 0 <= i < |b| && b[i] {
        assert i < n ==> b[..n][i];
      }
      if i :| 0 <= i < n && b[..n][i] {
        assert b[i];
      }
    }
  }

  /** Dropping the last restriction costs one. */
  lemma {:induction false} OnesDropLast(b: seq<bool>)
    requires |b| > 0 && b[|b| - 1]
    ensures Ones(b[|b| - 1 := false]) == Ones(b) - 1
  {
    var n := |b| - 1;
    assert b[n := false][..n] == b[..n];
  }

  // ----- the sets of each loop -----

  /** ops[d] lists sets of loop d, each with an edge, and closed under cutting back. */
  ghost predicate GoodOps(ops: seq<seq<SetIr>>) {
    forall d :: 0 <= d < |ops| ==> GoodLevel(ops, d)
  }

  ghost predicate GoodLevel(ops: seq<seq<SetIr>>, d: nat)
    requires d < |ops|
  {
    && Distinct(ops[d])
    && (forall t :: 0 <= t < |ops[d]| ==> ops[d][t].Valid() && ops[d][t].Depth() == d && Ones(ops[d][t].edges) > 0)
    && (forall t, e :: 0 <= t < |ops[d]| && 0 <= e < d && Ones(ops[d][t].edges[..e + 1]) > 0 ==>
          ops[d][t].UpTo(e) in ops[e])
  }

  /** The cut of a set to loop e, if some loop condition remains an edge. */
  function CutTo(op: SetIr, e: nat): (r: Option<SetIr>)
    requires op.Valid() && e < |op.edges|
  {
    if Ones(op.edges[..e + 1]) > 0 then Some(op.UpTo(e)) else None
  }

  /** Where a set is computed from: its unbounded twin in the same loop if there is
      one, otherwise its cut to the previous loop. */
  function ParentOf(ops: seq<seq<SetIr>>, op: SetIr): Option<SetIr>
    requires op.Valid() && op.Depth() < |ops|
  {
    if op.Restricted() && op.Unbounded() in ops[op.Depth()] then
      Some(op.Unbounded())
    else if op.Depth() > 0 then
      CutTo(op, op.Depth() - 1)
    else
      None
  }

  /** The test of the first scan singles out the unbounded twin. */
  predicate LooksLikeTwin(op: SetIr, vset: SetIr, induced: bool)
    requires vset.Valid()
  {
    && SupersetOf(op, vset, induced) && |op.edges| == |vset.edges| && op != vset
    && Ones(op.edges) == Ones(vset.edges)
    && Ones(vset.restricts) - Ones(op.restricts) == 1
    && vset.Restricted() && !op.Restricted()
  }

  lemma {:induction false} TwinTest(op: SetIr, vset: SetIr, induced: bool)
    requires vset.Valid()
    ensures LooksLikeTwin(op, vset, induced) <==> vset.Restricted() && op == vset.Unbounded()
  {
    hide Ones;
    var d := vset.Depth();
    if LooksLikeTwin(op, vset, induced) {
      OnesSubset(op.edges, vset.edges);
      OnesDropLast(vset.restricts);
      var cut := vset.restricts[d := false];
      forall i | 0 <= i < |cut| ensures op.restricts[i] ==> cut[i] {}
      OnesSubset(op.restricts, cut);
    }
    if vset.Restricted() && op == vset.Unbounded() {
      OnesDropLast(vset.restricts);
    }
  }

  /** Of the cuts' supersets in loop e, none is smaller than the cut itself. */
  lemma {:induction false} BetweenIsCut(op: SetIr, vset: SetIr, e: nat, induced: bool)
    requires vset.Valid() && e < |vset.edges| && op.Valid() && op.Depth() == e
    requires SupersetOf(op, vset, induced) && SupersetOf(vset.UpTo(e), op, induced)
    ensures op == vset.UpTo(e)
  {
    var cut := vset.UpTo(e);
    forall i | 0 <= i <= e ensures op.edges[i] == cut.edges[i] && op.restricts[i] == cut.restricts[i] {
      assert cut.edges[i] == vset.edges[i] && cut.restricts[i] == vset.restricts[i];
    }
    assert op.edges == cut.edges && op.restricts == cut.restricts;
  }

  /** Some edge of a listed superset survives the cut. */
  lemma {:induction false} SupersetKeepsEdge(op: SetIr, vset: SetIr, e: nat, induced: bool)
    requires vset.Valid() && e < |vset.edges| && op.Valid() && op.Depth() == e
    requires SupersetOf(op, vset, induced) && Ones(op.edges) > 0
    ensures Ones(vset.edges[..e + 1]) > 0
  {
    SomeOne(op.edges);
    SomeOne(vset.edges[..e + 1]);
    var i :| 0 <= i < |op.edges| && op.edges[i];
    assert vset.edges[..e + 1][i];
  }

  /** get_parent_vset with a loop: scanning loop e for the smallest superset finds the cut. */
  method GetParentAt(ops: seq<seq<SetIr>>, vset: SetIr, e: nat, induced: bool) returns (out: Option<SetIr>)
    requires GoodOps(ops) && vset.Valid() && e < |ops| && e < vset.Depth()
    requires CutTo(vset, e).Some? ==> vset.UpTo(e) in ops[e]
    ensures out == CutTo(vset, e)
  {
    out := None;
    ghost var cut := vset.UpTo(e);
    assert GoodLevel(ops, e);
    for t := 0 to |ops[e]|
      invariant out.Some? ==> out.value in ops[e][..t] && SupersetOf(out.value, vset, induced)
      invariant out.None? ==> forall u :: 0 <= u < t ==> !SupersetOf(ops[e][u], vset, induced)
      invariant cut in ops[e][..t] ==> out == Some(cut)
    {
      var op := ops[e][t];
      assert ops[e][..t + 1] == ops[e][..t] + [op];
      if SupersetOf(op, vset, induced) && op != vset && (out.None? || SupersetOf(out.value, op, induced)) {
        if out == Some(cut) {
          BetweenIsCut(op, vset, e, induced);
        }
        out := Some(op);
      } else if op == cut {
        CutIsSuperset(vset, e, induced);
        SupersetOfCut(if out.Some? then out.value else cut, vset, e, induced);
      }
    }
    ScanIsCut(ops, vset, e, induced, out);
  }

  lemma {:induction false} CutIsSuperset(vset: SetIr, e: nat, induced: bool)
    requires vset.Valid() && e < |vset.edges|
    ensures SupersetOf(vset.UpTo(e), vset, induced)
  {
  }

  lemma {:induction false} SupersetOfCut(op: SetIr, vset: SetIr, e: nat, induced: bool)
    requires vset.Valid() && e < |vset.edges| && op.Valid() && op.Depth() <= e
    ensures SupersetOf(op, vset, induced) <==> SupersetOf(op, vset.UpTo(e), induced)
  {
    var cut := vset.UpTo(e);
    forall i | 0 <= i < |op.edges| ensures cut.edges[i] == vset.edges[i] && cut.restricts[i] == vset.restricts[i] {}
  }

  lemma {:induction false} ScanIsCut(ops: seq<seq<SetIr>>, vset: SetIr, e: nat, induced: bool, out: Option<SetIr>)
    requires GoodOps(ops) && vset.Valid() && e < |ops| && e < vset.Depth()
    requires CutTo(vset, e).Some? ==> vset.UpTo(e) in ops[e]
    requires out.Some? ==> out.value in ops[e] && SupersetOf(out.value, vset, induced)
    requires out.None? ==> forall u :: 0 <= u < |ops[e]| ==> !SupersetOf(ops[e][u], vset, induced)
    requires vset.UpTo(e) in ops[e] ==> out == Some(vset.UpTo(e))
    ensures out == CutTo(vset, e)
  {
    assert GoodLevel(ops, e);
    CutIsSuperset(vset, e, induced);
    if out.Some? {
      SupersetKeepsEdge(out.value, vset, e, induced);
    }
  }

  /** get_parent_vset: the twin if the first scan finds one, else the cut. */
  method GetParentVset(ops: seq<seq<SetIr>>, vset: SetIr, induced: bool) returns (out: Option<SetIr>)
    requires GoodOps(ops) && vset.Valid() && vset.Depth() < |ops| && vset in ops[vset.Depth()]
    ensures out == ParentOf(ops, vset)
  {
    var d := vset.Depth();
    for t := 0 to |ops[d]|
      invariant vset.Restricted() ==> vset.Unbounded() !in ops[d][..t]
    {
      TwinTest(ops[d][t], vset, induced);
      if LooksLikeTwin(ops[d][t], vset, induced) {
        return Some(ops[d][t]);
      }
    }
    assert ops[d][..|ops[d]|] == ops[d];
    if d > 0 {
      assert GoodLevel(ops, d);
      out := GetParentAt(ops, vset, d - 1, induced);
    } else {
      out := None;
    }
  }
}
