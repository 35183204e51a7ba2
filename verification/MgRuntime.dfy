/** What the minigraph store answers is what the rewritten plan may rely on. */
module MgRuntime {
  import opened Counting
  import opened Patterns
  import opened SortedLists
  import opened Ir
  import opened LoopCode
  import opened PlanCompiler
  import opened PlanCorrect
  import opened MgPlan
  import opened MgOrder
  import opened Positions
  import opened MiniGraphs

  /** The run-time minigraph built for m after loops 0..m.Depth() chose f. */
  ghost predicate BuiltFor(s: Setting, m: MgIr, bounded: bool, f: seq<nat>, mini: Mini)
    requires m.Valid() && m.Depth() < |f|
  {
    && Lists(mini.vertex, Denotes(s.g, s.q.induced, m.vertices, f))
    && Lists(mini.inter, Denotes(s.g, s.q.induced, m.intersect, f))
    && mini.bounded == bounded
  }

  /** Any correct row answers well; right after the building loop it has to be exact. */
  lemma {:induction false} RowAnswers(s: Setting, m: MgIr, bounded: bool, f: seq<nat>, mini: Mini, row: seq<nat>)
    requires m.Valid() && m.Depth() + 1 < |f| && BuiltFor(s, m, bounded, f, mini)
    requires RowOk(s.g, mini.inter, bounded, f[|f| - 1], row)
    requires m.Depth() + 2 == |f| ==> Elements(row) == PrunedSet(s.g, mini.inter, bounded, f[|f| - 1])
    requires s.ans(m, f) == Elements(row)
    ensures AnswerGood(s, bounded, m, f)
  {
    hide Denotes;
    var v, inner := f[|f| - 1], Denotes(s.g, s.q.induced, m.intersect, f);
    assert forall x :: x in mini.inter <==> x in Elements(mini.inter);
    forall x | x in inner && s.g.Edge(v, x) && (bounded ==> x < v) ensures x in s.ans(m, f) {
      assert x in PrunedSet(s.g, mini.inter, bounded, v);
    }
  }

  /** The minigraph stays the one that was built while later loops run. */
  lemma {:induction false} BuiltStays(s: Setting, m: MgIr, bounded: bool, f: seq<nat>, h: seq<nat>, a: Mini, b: Mini)
    requires m.Valid() && m.Depth() < |f| && f <= h && BuiltFor(s, m, bounded, f, a) && Later(a, b)
    ensures BuiltFor(s, m, bounded, h, b)
  {
    DenotesKept(s.g, s.q.induced, m.vertices, f, h);
    DenotesKept(s.g, s.q.induced, m.intersect, f, h);
  }

  /** The rows of all vertices in xs are pruned. */
  ghost predicate RowsHeld(mini: Mini, xs: set<nat>) {
    |mini.state| == |mini.vertex| && forall i :: 0 <= i < |mini.vertex| && mini.vertex[i] in xs ==> mini.state[i].Held?
  }

  lemma {:induction false} IterRowsHeld(mini: Mini, iter: seq<nat>, xs: set<nat>)
    requires IterHeld(mini, iter) && Lists(iter, xs)
    ensures RowsHeld(mini, xs)
  {
    forall i | 0 <= i < |mini.vertex| && mini.vertex[i] in xs ensures mini.state[i].Held? {
      assert mini.vertex[i] in Elements(iter);
    }
  }

  lemma {:induction false} AllRowsHeld(mini: Mini, xs: set<nat>)
    requires IterHeld(mini, mini.vertex)
    ensures RowsHeld(mini, xs)
  {
  }

  /** Rows that were pruned stay pruned. */
  lemma {:induction false} HeldStays(a: Mini, b: Mini, xs: set<nat>)
    requires RowsHeld(a, xs) && Later(a, b)
    ensures RowsHeld(b, xs)
  {
    forall i | 0 <= i < |b.vertex| && b.vertex[i] in xs ensures b.state[i].Held? {
      assert a.state[i].Held? && SameSlice(a, b, i);
    }
  }

  /** A vertex among m's vertices has a position, and the store's answer there is good:
      whatever policy built the minigraph, as long as the next loop's rows were pruned. */
  method Answer(s: Setting, store: MiniGraphStore, m: MgIr, bounded: bool, f: seq<nat>, k: nat, i: nat, ghost xs: set<nat>)
    returns (row: seq<nat>)
    requires store.Valid() && store.g == s.g && k < |store.minis|
    requires m.Valid() && m.Depth() + 1 < |f| && BuiltFor(s, m, bounded, f, store.minis[k])
    requires i < |store.minis[k].vertex| && store.minis[k].vertex[i] == f[|f| - 1]
    requires RowsHeld(store.minis[k], xs) && (m.Depth() + 2 == |f| ==> f[|f| - 1] in xs)
    modifies store
    ensures store.Valid() && StoreLater(old(store.minis), store.minis) && Sorted(row)
    ensures forall ans: Answers :: ans(m, f) == Elements(row) ==> AnswerGood(s.(ans := ans), bounded, m, f)
    ensures BuiltFor(s, m, bounded, f, store.minis[k]) && RowsHeld(store.minis[k], xs)
  {
    hide StoreOk, RowOk, BuiltFor, AnswerGood, MiniOk;
    ghost var before := store.minis;
    EntryInStore(s.g, store.minis, k, i);
    row := store.N(k, i);
    assert Later(before[k], store.minis[k]);
    BuiltStays(s, m, bounded, f, f, before[k], store.minis[k]);
    HeldStays(before[k], store.minis[k], xs);
    BaseSorted(s.g, store.minis[k].inter, store.minis[k].bounded, store.minis[k].vertex[i], row);
    BoundedKept(s, m, bounded, f, store.minis[k]);
    forall ans: Answers | ans(m, f) == Elements(row) ensures AnswerGood(s.(ans := ans), bounded, m, f) {
      OtherAnswers(s, m, bounded, f, store.minis[k], ans);
      RowAnswers(s.(ans := ans), m, bounded, f, store.minis[k], row);
    }
  }

  lemma {:induction false} BoundedKept(s: Setting, m: MgIr, bounded: bool, f: seq<nat>, mini: Mini)
    requires m.Valid() && m.Depth() < |f| && BuiltFor(s, m, bounded, f, mini)
    ensures mini.bounded == bounded
  {
  }

  lemma {:induction false} OtherAnswers(s: Setting, m: MgIr, bounded: bool, f: seq<nat>, mini: Mini, ans: Answers)
    requires m.Valid() && m.Depth() < |f| && BuiltFor(s, m, bounded, f, mini)
    ensures BuiltFor(s.(ans := ans), m, bounded, f, mini)
  {
  }

  /** A minigraph chosen as parent offers all the vertices and everything to intersect with. */
  lemma {:induction false} FeedsAtRunTime(s: Setting, parent: MgIr, child: MgIr, flags: set<MgIr>, f: seq<nat>, a: Mini, b: Mini)
    requires s.g.Valid() && parent.Valid() && child.Valid() && child.Depth() < |f|
    requires MayFeed(parent, child, s.q.induced, flags) && parent.Depth() <= child.Depth()
    requires BuiltFor(s, parent, parent in flags, f, a) && BuiltFor(s, child, child in flags, f, b)
    ensures Elements(b.vertex) <= Elements(a.vertex) && Elements(b.inter) <= Elements(a.inter)
    ensures a.bounded ==> b.bounded
  {
    SupersetDenotes(s.g, s.q.induced, parent.vertices, child.vertices, f);
    SupersetDenotes(s.g, s.q.induced, parent.intersect, child.intersect, f);
  }

  // ----- reading positions straight off the loop index -----

  /** skip_build_indices: same loop and same edges. */
  predicate SkipsIndices(iter: SetIr, vertices: SetIr)
    requires iter.Valid() && vertices.Valid()
  {
    iter.Depth() == vertices.Depth() && iter.edges == vertices.edges
  }

  /** Then the iterated set is a front part of the minigraph's vertices: loop index and
      position agree. */
  lemma {:induction false} SkipMeansPrefix(g: Graph, induced: bool, iter: SetIr, vertices: SetIr, f: seq<nat>,
                                           a: seq<nat>, b: seq<nat>)
    requires g.Valid() && iter.Valid() && vertices.Valid() && iter.Depth() < |f|
    requires SkipsIndices(iter, vertices) && SupersetOf(vertices, iter, induced)
    requires Lists(a, Denotes(g, induced, iter, f)) && Lists(b, Denotes(g, induced, vertices, f))
    ensures a <= b
  {
    hide Denotes;
    SupersetDenotes(g, induced, vertices, iter, f);
    forall x, y | x in Elements(a) && y in Elements(b) && y <= x ensures y in Elements(a) {
      CutIsDownward(g, induced, iter, vertices, f, x, y);
    }
    LowerPartIsPrefix(a, b);
  }

  /** The extra conditions of iter are upper bounds, so it is closed downwards. */
  lemma {:induction false} CutIsDownward(g: Graph, induced: bool, iter: SetIr, vertices: SetIr, f: seq<nat>, x: nat, y: nat)
    requires iter.Valid() && vertices.Valid() && iter.Depth() < |f| && SkipsIndices(iter, vertices)
    requires x in Denotes(g, induced, iter, f) && y in Denotes(g, induced, vertices, f) && y <= x
    ensures y in Denotes(g, induced, iter, f)
  {
    forall i | 0 <= i < |iter.edges| ensures Meets(g, induced, iter, f, i, y) {
      assert Meets(g, induced, iter, f, i, x) && Meets(g, induced, vertices, f, i, y);
    }
  }

  lemma {:induction false} LowerPartIsPrefix(a: seq<nat>, b: seq<nat>)
    requires Sorted(a) && Sorted(b) && Elements(a) <= Elements(b)
    requires forall x, y :: x in Elements(a) && y in Elements(b) && y <= x ==> y in Elements(a)
    ensures a <= b
  {
    if |a| > 0 {
      SameUpTo(a, b, |a| - 1);
    }
  }

  lemma {:induction false} SameUpTo(a: seq<nat>, b: seq<nat>, j: nat)
    requires Sorted(a) && Sorted(b) && Elements(a) <= Elements(b) && j < |a|
    requires forall x, y :: x in Elements(a) && y in Elements(b) && y <= x ==> y in Elements(a)
    ensures j < |b| && forall u :: 0 <= u <= j ==> a[u] == b[u]
  {
    if j > 0 {
      SameUpTo(a, b, j - 1);
    }
    assert a[j] in Elements(b);
    var t :| 0 <= t < |b| && b[t] == a[j];
    if j > 0 {
      assert a[j - 1] < a[j];
      InOrderAt(b, t, j - 1);
    }
    InOrderAt(b, j, t);
    assert a[j] in Elements(a) && b[j] in Elements(b);
    assert b[j] in Elements(a);
    var u: nat :| u < |a| && a[u] == b[j];
    if j > 0 {
      assert b[j - 1] < b[j];
      InOrderAt(a, u, j - 1);
    }
    InOrderAt(a, j, u);
  }
}
