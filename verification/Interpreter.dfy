/** The recursive matcher itself, working on mutable prefix sets. */
module Interpreter {
  import opened Arithmetic
  import opened Counting
  import opened Patterns
  import opened LinkedKeys
  import opened Schedules
  import opened SortedLists
  import opened Completions
  import opened InclusionExclusion
  import opened ExclusionGroups
  import opened Matcher

  lemma {:induction false} SameBelowChain(v: Plan, a: seq<seq<nat>>, b: seq<seq<nat>>, c: seq<seq<nat>>, d: nat)
    requires SameBelow(v, a, b, d) && SameBelow(v, b, c, d)
    ensures SameBelow(v, a, c, d)
  {
  }

  lemma {:induction false} LowerDepth(v: Plan, a: seq<seq<nat>>, b: seq<seq<nat>>, d: nat)
    requires SameBelow(v, a, b, d + 1)
    ensures SameBelow(v, a, b, d)
  {
  }

  /** The list of the loop at depth |f|. */
  ghost predicate LoopList(g: Graph, v: Plan, data: seq<nat>, f: seq<nat>)
    requires Square(v.adj, |v.adj|) && |f| < |v.adj|
  {
    Lists(data, Candidates(g, f, Nbrs(v.adj, |f|)))
  }

  lemma {:induction false} LoopSetLives(g: Graph, v: Plan, vs: seq<seq<nat>>, f: seq<nat>, d: nat)
    requires g.Valid() && v.Valid() && Live(g, v, vs, f)
    requires 1 <= d < v.n && forall j :: 0 <= j < |Nbrs(v.adj, d)| ==> Nbrs(v.adj, d)[j] < |f|
    ensures 0 <= v.loopSet[d] < |vs|
    ensures Lists(vs[v.loopSet[d]], Candidates(g, f, Nbrs(v.adj, d)))
  {
    var p := v.loopSet[d];
    assert v.prefix[p] == Nbrs(v.adj, d) && IsPrefix(v.prefix[p], v.n);
    assert LiveAt(g, v, vs, f, p);
  }

  lemma {:induction false} CurrentLoopLives(g: Graph, v: Plan, vs: seq<seq<nat>>, f: seq<nat>)
    requires g.Valid() && v.Valid() && Live(g, v, vs, f) && 1 <= |f| < v.n
    ensures |v.loopSet| == v.n && 0 <= v.loopSet[|f|] < |vs| && LoopList(g, v, vs[v.loopSet[|f|]], f)
    ensures vs[v.loopSet[|f|]] == [] ==> Extending(Goal(g, v), f) == {}
  {
    LoopSetLives(g, v, vs, f, |f|);
    if vs[v.loopSet[|f|]] == [] {
      EmptyPrefixKills(Goal(g, v), f, Nbrs(v.adj, |f|), |f|);
    }
  }

  /** The candidates below the bound, minus the matched vertices, come next. */
  lemma {:induction false} NextInLoop(g: Graph, v: Plan, data: seq<nat>, f: seq<nat>, m: nat, x: nat)
    requires g.Valid() && v.Valid() && |f| < v.n - v.optimizeNum
    requires LoopList(g, v, data, f) && IsBound(v.pairs, f, |f|, 0, |g.adj|, m)
    ensures Next(Goal(g, v), f, x) <==> x in data && x !in f && x < m
  {
    hide Plan.Valid, Graph.Valid, Next, IsBound;
    assert x in data <==> x in Elements(data);
    BoundIsNext(g, v, f, m, x);
  }

  lemma {:induction false} LeafCount(g: Graph, v: Plan, data: seq<nat>, f: seq<nat>, m: nat, k: nat)
    requires g.Valid() && v.Valid() && v.optimizeNum == 0 && |f| + 1 == v.n && Partial(Goal(g, v), f)
    requires LoopList(g, v, data, f) && IsBound(v.pairs, f, |f|, 0, |g.adj|, m)
    requires k <= |data| && forall x :: x in data[..k] <==> x in data && x < m
    ensures |Extending(Goal(g, v), f)| == |Elements(data[..k]) - Elements(f)|
  {
    hide Plan.Valid, Graph.Valid, Next, IsBound, LoopList, Partial;
    var xs := Elements(data[..k]) - Elements(f);
    forall x: nat ensures x in xs <==> Next(Goal(g, v), f, x) {
      NextInLoop(g, v, data, f, m, x);
    }
    LastVertex(Goal(g, v), f, xs);
  }

  lemma {:induction false} AllAreBounded(v: Plan, f: seq<nat>, limit: nat)
    requires v.pairs == []
    ensures IsBound(v.pairs, f, |f|, 0, limit, limit)
  {
    forall x: nat ensures BoundedFrom(v.pairs, f, |f|, 0, x) {}
  }

  /** The second vertex is already a leaf: the last vertex, or inclusion-exclusion. */
  predicate LeafFirst(v: Plan) {
    v.n == 2 || 1 + v.optimizeNum == v.n
  }

  /** What one edge range of `vertex` adds. */
  ghost function RangeCount(g: Graph, v: Plan, vertex: nat, data: seq<nat>): nat
    requires g.Valid() && v.Valid()
  {
    if LeafFirst(v) then
      |Extending(Goal(g, v), [vertex])|
    else
      |Through(Goal(g, v), [vertex], Elements(data))|
  }

  class Worker {
    const g: Graph
    const v: Plan
    var vertexSet: seq<seq<nat>>
    var subtractionSet: seq<nat>
    var localAns: int

    ghost predicate Ready()
      reads this
    {
      && g.Valid() && v.Valid()
      && Live(g, v, vertexSet, subtractionSet)
      && Partial(Goal(g, v), subtractionSet)
    }

    constructor (g: Graph, v: Plan)
      requires g.Valid() && v.Valid()
      ensures this.g == g && this.v == v
      ensures Ready() && subtractionSet == [] && localAns == 0
    {
      this.g, this.v := g, v;
      vertexSet := seq(|v.prefix|, _ => []);
      subtractionSet, localAns := [], 0;
    }

    /** build_vertex_set: the row of x, cut down to the father's set if there is one. */
    method BuildVertexSet(e: nat, x: nat)
      requires g.Valid() && v.Valid() && |subtractionSet| < v.n && x < |g.adj|
      requires e < |v.prefix| && LastOf(v.prefix[e]) == |subtractionSet|
      requires LiveAbove(g, v, vertexSet, subtractionSet + [x], e)
      modifies `vertexSet
      ensures LiveAbove(g, v, vertexSet, subtractionSet + [x], e - 1)
      ensures SameBelow(v, old(vertexSet), vertexSet, |subtractionSet|)
    {
      hide Connected, LoopsBuilt, Restrictions, Linked;
      var father := v.father[e];
      assert FatherOf(v.prefix, v.father, e);
      var row: seq<nat> := g.adj[x];
      if father != -1 {
        FatherLives(g, v, vertexSet, subtractionSet, x, e);
        row := Intersection(vertexSet[father], row);
      }
      EntryBuilt(g, v, vertexSet, subtractionSet, x, e, row);
      vertexSet := vertexSet[e := row];
    }

    /** Builds every prefix that ends in the vertex matched to x, stopping at an empty one. */
    method Rebuild(x: nat) returns (isZero: bool)
      requires Ready() && |subtractionSet| < v.n && x < |g.adj|
      modifies `vertexSet
      ensures SameBelow(v, old(vertexSet), vertexSet, |subtractionSet|)
      ensures !isZero ==> Live(g, v, vertexSet, subtractionSet + [x])
      ensures isZero ==> Extending(Goal(g, v), subtractionSet + [x]) == {}
    {
      hide Live, LiveAbove, SameBelow, Partial, Connected, LoopsBuilt, Restrictions, LiveAt;
      ghost var f := subtractionSet;
      var e := v.last[|subtractionSet|];
      FirstEntry(g, v, vertexSet, f, x);
      SameBelowItself(v, vertexSet, |f|);
      while e != -1
        invariant -1 <= e < |v.prefix| && (e >= 0 ==> LastOf(v.prefix[e]) == |f|)
        invariant |vertexSet| == |v.prefix|
        invariant LiveAbove(g, v, vertexSet, f + [x], e)
        invariant SameBelow(v, old(vertexSet), vertexSet, |f|)
        decreases e
      {
        ghost var before := vertexSet;
        BuildVertexSet(e, x);
        SameBelowChain(v, old(vertexSet), before, vertexSet, |f|);
        AboveAt(g, v, vertexSet, f + [x], e);
        if vertexSet[e] == [] {
          EmptyEntry(g, v, vertexSet, f + [x], e);
          return true;
        }
        NextEntry(g, v, vertexSet, f, x, e);
        e := v.next[e];
      }
      WalkDone(g, v, vertexSet, f + [x]);
      isZero := false;
    }

    method MinVertex() returns (m: nat)
      requires v.Valid() && |subtractionSet| < v.n
      ensures IsBound(v.pairs, subtractionSet, |subtractionSet|, 0, |g.adj|, m)
    {
      hide IsBound, Tree, LoopsBuilt, Connected;
      ghost var f, d := subtractionSet, |subtractionSet|;
      m := |g.adj|;
      var i := v.restrictLast[|subtractionSet|];
      NoBoundYet(v.pairs, f, d, |g.adj|);
      assert Newest(Seconds(v.pairs), i, d, |v.pairs|);
      BoundStep(v.pairs, f, d, |v.pairs|, i, |g.adj|, m);
      while i != -1
        invariant -1 <= i < |v.pairs| && (i >= 0 ==> Seconds(v.pairs)[i] == d)
        invariant IsBound(v.pairs, f, d, i + 1, |g.adj|, m)
        decreases i
      {
        BoundTake(v.pairs, f, d, i, |g.adj|, m);
        if m > subtractionSet[v.restrictIndex[i]] {
          m := subtractionSet[v.restrictIndex[i]];
        }
        assert Newest(Seconds(v.pairs), v.restrictNext[i], d, i);
        BoundStep(v.pairs, f, d, i, v.restrictNext[i], |g.adj|, m);
        i := v.restrictNext[i];
      }
    }

    /** A working copy of a candidate list. */
    static method CopyOf(s: seq<nat>) returns (a: array<nat>)
      ensures fresh(a) && a[..] == s
    {
      a := new nat[|s|](i requires 0 <= i < |s| => s[i]);
    }

    /** The number of fresh vertices common to the candidate sets of one block. */
    method CountBlock(block: seq<nat>) returns (size: int)
      requires v.Valid() && |subtractionSet| + v.optimizeNum == v.n && Distinct(subtractionSet)
      requires RestLists(g, v, vertexSet, subtractionSet)
      requires |block| > 0 && forall j :: 0 <= j < |block| ==> block[j] < v.optimizeNum
      ensures size == |Common(FreeRest(g, v.adj, subtractionSet, v.optimizeNum), block)|
    {
      hide Connected, Restrictions, Tree, Independent, GoodTables, Meeting, Common, Rest, Used, Nbrs;
      ghost var f, cs := subtractionSet, Rest(g, v.adj, subtractionSet, v.optimizeNum);
      CommonIsMeeting(cs, Elements(subtractionSet), block);
      var d := v.n - v.optimizeNum;
      assert RestList(g, v, vertexSet, f, block[0]);
      var id0 := v.loopSet[d + block[0]];
      if |block| == 1 {
        MeetingOfOne(cs, block);
        size := UnorderedSubtractionSize(vertexSet[id0], subtractionSet);
        return;
      }
      assert RestList(g, v, vertexSet, f, block[1]);
      var id1 := v.loopSet[d + block[1]];
      var first := vertexSet[id0];
      if id0 != id1 {
        first := Intersection(vertexSet[id0], vertexSet[id1]);
      }
      var tmpSet := CopyOf(first);
      var tmpSize: nat := |first|;
      assert tmpSet[..tmpSize] == tmpSet[..];
      MeetingOfTwo(cs, block[..2]);
      for i := 2 to |block|
        invariant tmpSize <= tmpSet.Length && fresh(tmpSet)
        invariant Lists(tmpSet[..tmpSize], Meeting(cs, block[..i]))
      {
        assert RestList(g, v, vertexSet, f, block[i]);
        var id := v.loopSet[d + block[i]];
        MeetingGrows(cs, block[..i + 1], i);
        assert block[..i + 1][..i] == block[..i];
        tmpSize := IntersectionWith(tmpSet, tmpSize, vertexSet[id]);
      }
      assert block[..|block|] == block;
      size := UnorderedSubtractionSize(tmpSet[..tmpSize], subtractionSet);
    }

    /** val times the sizes of the blocks, giving up as soon as the product is zero. */
    method CountGroup(rank: nat, ghost s: Family) returns (val: int)
      requires v.Valid() && |subtractionSet| + v.optimizeNum == v.n && Distinct(subtractionSet)
      requires RestLists(g, v, vertexSet, subtractionSet)
      requires s == FreeRest(g, v.adj, subtractionSet, v.optimizeNum)
      requires rank < |v.groups| == |v.vals| && GroupFits(v.groups[rank], |s|)
      requires forall b :: 0 <= b < |v.groups[rank]| ==> |v.groups[rank][b]| > 0
      ensures val == GroupProduct(s, v.vals[rank], v.groups[rank], |v.groups[rank]|)
    {
      hide Plan.Valid, RestLists, Common, FreeRest, Times;
      var group := v.groups[rank];
      val := v.vals[rank];
      for k := 0 to |group|
        invariant val == GroupProduct(s, v.vals[rank], group, k)
      {
        var size := CountBlock(group[k]);
        val := Times(val, size);
        if val == 0 {
          ZeroStays(s, v.vals[rank], group, k + 1);
          return;
        }
      }
    }

    method ExclusionLeaf()
      requires Ready() && 0 < |subtractionSet| && 0 < v.optimizeNum && |subtractionSet| + v.optimizeNum == v.n
      modifies `localAns
      ensures localAns == old(localAns) + |Extending(Goal(g, v), subtractionSet)|
    {
      hide Tree, LoopsBuilt, Restrictions, Connected, Live, Partial, GoodTables, Independent, FreeRest, Extending;
      hide InjectiveChoices, GroupProduct, GroupFits, Times;
      ghost var s := FreeRest(g, v.adj, subtractionSet, v.optimizeNum);
      RestLives(g, v, vertexSet, subtractionSet);
      PartialIsInjective(Goal(g, v), subtractionSet);
      TablesCountInjective(s, v.groups, v.vals);
      BranchSettled(g, v, subtractionSet);
      for rank := 0 to |v.groups|
        invariant localAns == old(localAns) + GroupSum(s, v.groups, v.vals, rank)
      {
        TablesNonEmpty(v.optimizeNum, v.groups, v.vals, rank);
        var val := CountGroup(rank, s);
        localAns := localAns + val;
      }
    }

    method LastLeaf(data: seq<nat>)
      requires Ready() && v.optimizeNum == 0 && |subtractionSet| + 1 == v.n
      requires LoopList(g, v, data, subtractionSet)
      modifies `localAns
      ensures localAns == old(localAns) + |Extending(Goal(g, v), subtractionSet)|
    {
      hide Plan.Valid, Partial, Live, Extending, IsBound;
      PartialIsInjective(Goal(g, v), subtractionSet);
      if |v.pairs| > 0 {
        var minVertex := MinVertex();
        var size := LowerBound(data, minVertex);
        LeafCount(g, v, data, subtractionSet, minVertex, size);
        if size > 0 {
          var count := UnorderedSubtractionSize(data[..size], subtractionSet);
          localAns := localAns + count;
        }
      } else {
        AllAreBounded(v, subtractionSet, |g.adj|);
        InGraph(g, data, subtractionSet, Nbrs(v.adj, |subtractionSet|));
        assert data[..|data|] == data;
        LeafCount(g, v, data, subtractionSet, |g.adj|, |data|);
        var count := UnorderedSubtractionSize(data, subtractionSet);
        localAns := localAns + count;
      }
    }

    /** Counts every match that extends the matched vertices. */
    method AggressiveFunc(depth: nat)
      requires Ready() && depth == |subtractionSet| && 1 <= depth < v.n && depth + v.optimizeNum <= v.n
      modifies this
      ensures subtractionSet == old(subtractionSet)
      ensures localAns == old(localAns) + |Extending(Goal(g, v), subtractionSet)|
      ensures SameBelow(v, old(vertexSet), vertexSet, depth)
      decreases v.n - depth, 2
    {
      hide Plan.Valid, Live, Partial, Extending, SameBelow, LoopList, IsBound;
      CurrentLoopLives(g, v, vertexSet, subtractionSet);
      LiveSize(g, v, vertexSet, subtractionSet);
      SameBelowItself(v, vertexSet, depth);
      var data := vertexSet[v.loopSet[depth]];
      if |data| == 0 {
        return;
      }
      if v.optimizeNum > 0 && depth == v.n - v.optimizeNum {
        ExclusionLeaf();
        return;
      }
      if depth == v.n - 1 {
        LastLeaf(data);
        return;
      }
      LoopListIsPart(g, v, data, subtractionSet);
      var minVertex := MinVertex();
      Loop(depth, data, minVertex);
      WholeLoop(g, v, data, subtractionSet);
    }

    /** The loop of AggressiveFunc, over some of the candidates, below the bound. */
    method Loop(depth: nat, data: seq<nat>, minVertex: nat)
      requires Ready() && depth == |subtractionSet| && 1 <= depth && depth + 1 < v.n && depth + v.optimizeNum < v.n
      requires LoopPart(g, v, data, subtractionSet)
      requires IsBound(v.pairs, subtractionSet, depth, 0, |g.adj|, minVertex)
      modifies this
      ensures subtractionSet == old(subtractionSet)
      ensures localAns == old(localAns) + |Through(Goal(g, v), subtractionSet, Elements(data))|
      ensures SameBelow(v, old(vertexSet), vertexSet, depth)
      decreases v.n - depth, 1
    {
      hide Plan.Valid, Graph.Valid, Live, Partial, Extending, SameBelow, Next, IsBound, LoopPart, Seen, Through,
        Sorted, Elements, Square, Enforced, Problem.Valid, Query.Valid;
      ghost var f, c, vs0 := subtractionSet, Goal(g, v), vertexSet;
      PlanSizes(v);
      LiveSize(g, v, vertexSet, f);
      SameBelowItself(v, vertexSet, depth);
      PartInGraph(g, v, data, f);
      SeenNothing(c, f, data);
      var i := 0;
      while i < |data| && data[i] < minVertex
        invariant 0 <= i <= |data| && subtractionSet == f
        invariant Live(g, v, vertexSet, f) && SameBelow(v, vs0, vertexSet, depth)
        invariant localAns == old(localAns) + Seen(c, f, data, i)
      {
        SeenOne(c, f, data, i);
        NextInPart(g, v, data, f, minVertex, data[i]);
        ghost var before := vertexSet;
        Visit(depth, data[i]);
        SameBelowChain(v, vs0, before, vertexSet, depth);
        i := i + 1;
      }
      SeenAll(g, v, data, f, minVertex, i);
    }

    /** One iteration: skip a matched vertex or a dead end, otherwise descend. */
    method Visit(depth: nat, vertex: nat)
      requires Ready() && depth == |subtractionSet| && 1 <= depth && depth + 1 < v.n && depth + v.optimizeNum < v.n
      requires vertex < |g.adj| && (vertex !in subtractionSet ==> Next(Goal(g, v), subtractionSet, vertex))
      modifies this
      ensures subtractionSet == old(subtractionSet)
      ensures localAns == old(localAns) + |Extending(Goal(g, v), subtractionSet + [vertex])|
      ensures SameBelow(v, old(vertexSet), vertexSet, depth) && Live(g, v, vertexSet, subtractionSet)
      decreases v.n - depth, 0
    {
      hide Plan.Valid, Live, Partial, Extending, SameBelow;
      ghost var f, vs0 := subtractionSet, vertexSet;
      LiveSize(g, v, vertexSet, f);
      SameBelowItself(v, vertexSet, depth);
      var seen := HasData(subtractionSet, vertex);
      if seen {
        NotNext(Goal(g, v), f, vertex);
        return;
      }
      hide Next;
      PartialGrows(Goal(g, v), f, vertex);
      var isZero := Rebuild(vertex);
      if !isZero {
        ghost var built := vertexSet;
        subtractionSet := subtractionSet + [vertex];
        AggressiveFunc(depth + 1);
        subtractionSet := subtractionSet[..|subtractionSet| - 1];
        assert subtractionSet == f;
        LowerDepth(v, built, vertexSet, depth);
        SameBelowChain(v, vs0, built, vertexSet, depth);
      }
      LiveKept(g, v, vs0, vertexSet, f);
    }

    /** Matches vertex 0 to each vertex of the graph in turn. */
    method PatternMatching() returns (ans: int)
      requires Ready() && subtractionSet == [] && localAns == 0
      modifies this
      ensures ans == |Matches(g, Query(v.n, v.adj, false), Enforced(v.pairs, v.n - v.optimizeNum))|
    {
      hide Plan.Valid, Live, Partial, Extending, Through, SameBelow, Next, Graph.Valid;
      ghost var c := Goal(g, v);
      PlanSizes(v);
      NothingBelow(c);
      for vertex := 0 to |g.adj|
        invariant subtractionSet == [] && Live(g, v, vertexSet, [])
        invariant localAns == |Through(c, [], Below(vertex))|
      {
        OneMoreBelow(c, vertex);
        Start(vertex);
      }
      EverythingBelow(c);
      ans := localAns;
    }

    method Start(vertex: nat)
      requires Ready() && subtractionSet == [] && vertex < |g.adj|
      modifies this
      ensures subtractionSet == [] && Live(g, v, vertexSet, [])
      ensures localAns == old(localAns) + |Extending(Goal(g, v), [vertex])|
    {
      hide Plan.Valid, Live, Partial, Extending, SameBelow, Next;
      PlanSizes(v);
      FirstIsNext(g, v, vertex);
      PartialGrows(Goal(g, v), [], vertex);
      BuildFirst(vertex);
      ghost var built := vertexSet;
      subtractionSet := subtractionSet + [vertex];
      assert subtractionSet == [] + [vertex] == [vertex];
      AggressiveFunc(1);
      subtractionSet := subtractionSet[..|subtractionSet| - 1];
      SameSize(v, built, vertexSet, 1);
      NothingLives(g, v, vertexSet);
    }

    /** Forgets the previous first vertex and starts over from another one. */
    method Restart(vertex: nat)
      requires Ready() && |subtractionSet| <= 1 && vertex < |g.adj|
      modifies this
      ensures Ready() && subtractionSet == [vertex] && localAns == old(localAns)
    {
      hide Plan.Valid, Live, Partial, Next, Graph.Valid;
      PlanSizes(v);
      LiveSize(g, v, vertexSet, subtractionSet);
      FirstIsNext(g, v, vertex);
      PartialGrows(Goal(g, v), [], vertex);
      assert [] + [vertex] == [vertex];
      subtractionSet := [];
      NothingLives(g, v, vertexSet);
      BuildFirst(vertex);
      subtractionSet := subtractionSet + [vertex];
    }

    /** What a thread does with the edge range it was handed: the range takes the place of
        the loop over the second vertex, but a leaf at depth 1 has no such loop. */
    method MatchEdge(vertex: nat, data: seq<nat>)
      requires Ready() && |subtractionSet| <= 1 && vertex < |g.adj|
      requires Sorted(data) && Elements(data) <= Elements(g.adj[vertex])
      modifies this
      ensures Ready() && subtractionSet == [vertex]
      ensures localAns == old(localAns) + RangeCount(g, v, vertex, data)
    {
      hide Plan.Valid, Graph.Valid, Live, Partial, Extending, SameBelow, Next, LoopPart, LoopList, IsBound, Through;
      PlanSizes(v);
      if subtractionSet != [vertex] {
        Restart(vertex);
      }
      ghost var built := vertexSet;
      if LeafFirst(v) {
        AggressiveFunc(1);
        LiveKept(g, v, built, vertexSet, subtractionSet);
        return;
      }
      CurrentLoopLives(g, v, vertexSet, subtractionSet);
      var loopSize := |vertexSet[v.loopSet[1]]|;
      if loopSize == 0 {
        NothingThrough(Goal(g, v), [vertex], Elements(data));
        return;
      }
      FirstRow(g, v, vertex, data);
      var minVertex := MinVertex();
      Loop(1, data, minVertex);
      LiveKept(g, v, built, vertexSet, subtractionSet);
    }

    /** The sets of depth 0, without looking for empty ones. */
    method BuildFirst(x: nat)
      requires Ready() && subtractionSet == [] && x < |g.adj|
      modifies `vertexSet
      ensures Live(g, v, vertexSet, [x])
    {
      hide Live, LiveAbove, SameBelow, Partial, Connected, LoopsBuilt, Restrictions, LiveAt;
      ghost var f: seq<nat> := [];
      assert f + [x] == [x];
      var e := v.last[0];
      FirstEntry(g, v, vertexSet, f, x);
      while e != -1
        invariant -1 <= e < |v.prefix| && (e >= 0 ==> LastOf(v.prefix[e]) == 0)
        invariant LiveAbove(g, v, vertexSet, f + [x], e)
        decreases e
      {
        BuildVertexSet(e, x);
        NextEntry(g, v, vertexSet, f, x, e);
        e := v.next[e];
      }
      WalkDone(g, v, vertexSet, f + [x]);
    }
  }

  /** Some of the candidates of the loop at depth |f|, in order. */
  ghost predicate LoopPart(g: Graph, v: Plan, data: seq<nat>, f: seq<nat>)
    requires Square(v.adj, |v.adj|) && |f| < |v.adj|
  {
    Sorted(data) && Elements(data) <= Candidates(g, f, Nbrs(v.adj, |f|))
  }

  lemma {:induction false} LoopListIsPart(g: Graph, v: Plan, data: seq<nat>, f: seq<nat>)
    requires Square(v.adj, |v.adj|) && |f| < |v.adj| && LoopList(g, v, data, f)
    ensures LoopPart(g, v, data, f)
  {
  }

  lemma {:induction false} PartInGraph(g: Graph, v: Plan, data: seq<nat>, f: seq<nat>)
    requires Square(v.adj, |v.adj|) && |f| < |v.adj| && LoopPart(g, v, data, f)
    ensures Sorted(data) && forall i :: 0 <= i < |data| ==> data[i] < |g.adj|
  {
    forall i | 0 <= i < |data| ensures data[i] < |g.adj| {
      assert data[i] in Elements(data);
    }
  }

  lemma {:induction false} NextInPart(g: Graph, v: Plan, data: seq<nat>, f: seq<nat>, m: nat, x: nat)
    requires g.Valid() && v.Valid() && |f| < v.n - v.optimizeNum && x in data
    requires LoopPart(g, v, data, f) && IsBound(v.pairs, f, |f|, 0, |g.adj|, m)
    ensures Next(Goal(g, v), f, x) <==> x !in f && x < m
  {
    hide Plan.Valid, Graph.Valid, Next, IsBound;
    assert x in Elements(data);
    BoundIsNext(g, v, f, m, x);
  }

  /** Leaving the loop at the first entry beyond the bound drops no match. */
  lemma {:induction false} BreakDropsNothing(g: Graph, v: Plan, data: seq<nat>, f: seq<nat>, m: nat, i: nat)
    requires g.Valid() && v.Valid() && |f| < v.n - v.optimizeNum
    requires LoopPart(g, v, data, f) && IsBound(v.pairs, f, |f|, 0, |g.adj|, m)
    requires i <= |data| && Sorted(data) && (i < |data| ==> data[i] >= m)
    ensures Through(Goal(g, v), f, Elements(data[..i])) == Through(Goal(g, v), f, Elements(data))
  {
    hide Plan.Valid, Graph.Valid, Next, IsBound, LoopPart, Extending;
    var c := Goal(g, v);
    forall h ensures h in Through(c, f, Elements(data)) <==> h in Through(c, f, Elements(data[..i])) {
      if h in Through(c, f, Elements(data)) {
        ExtensionIsNext(c, f, h);
        NextInPart(g, v, data, f, m, h[|f|]);
        var k :| 0 <= k < |data| && data[k] == h[|f|];
        assert k < i && data[..i][k] == h[|f|];
      }
    }
  }

  /** The matches through the first i entries. */
  ghost function Seen(c: Problem, f: seq<nat>, data: seq<nat>, i: nat): nat
    requires c.Valid() && i <= |data|
  {
    |Through(c, f, Elements(data[..i]))|
  }

  lemma {:induction false} SeenNothing(c: Problem, f: seq<nat>, data: seq<nat>)
    requires c.Valid()
    ensures Seen(c, f, data, 0) == 0
  {
    ThroughNothing(c, f, data);
  }

  lemma {:induction false} SeenOne(c: Problem, f: seq<nat>, data: seq<nat>, i: nat)
    requires c.Valid() && |f| < c.q.n && Sorted(data) && i < |data|
    ensures Seen(c, f, data, i + 1) == Seen(c, f, data, i) + |Extending(c, f + [data[i]])|
  {
    ThroughStep(c, f, data, i);
  }

  lemma {:induction false} SeenAll(g: Graph, v: Plan, data: seq<nat>, f: seq<nat>, m: nat, i: nat)
    requires g.Valid() && v.Valid() && |f| < v.n - v.optimizeNum
    requires LoopPart(g, v, data, f) && IsBound(v.pairs, f, |f|, 0, |g.adj|, m)
    requires i <= |data| && Sorted(data) && (i < |data| ==> data[i] >= m)
    ensures Seen(Goal(g, v), f, data, i) == |Through(Goal(g, v), f, Elements(data))|
  {
    BreakDropsNothing(g, v, data, f, m, i);
  }

  /** All the candidates give all the matches. */
  lemma {:induction false} WholeLoop(g: Graph, v: Plan, data: seq<nat>, f: seq<nat>)
    requires g.Valid() && v.Valid() && |f| < v.n && LoopList(g, v, data, f)
    ensures Through(Goal(g, v), f, Elements(data)) == Extending(Goal(g, v), f)
  {
    hide Extending, Through, Next, Candidates;
    var c := Goal(g, v);
    forall x: nat | Next(c, f, x) ensures x in Elements(data) {
      LoopSetIsNext(c, f, x);
    }
    ThroughAll(c, f, Elements(data));
  }

  lemma {:induction false} NothingThrough(c: Problem, f: seq<nat>, xs: set<nat>)
    requires c.Valid() && Extending(c, f) == {}
    ensures Through(c, f, xs) == {}
  {
  }

  /** The second vertex is looked for in the row of the first. */
  lemma {:induction false} FirstRow(g: Graph, v: Plan, vertex: nat, data: seq<nat>)
    requires g.Valid() && v.Valid() && vertex < |g.adj| && Sorted(data) && Elements(data) <= Elements(g.adj[vertex])
    ensures LoopPart(g, v, data, [vertex])
  {
    hide Tree, LoopsBuilt, Restrictions, Plan.ExclusionFits;
    var p := Nbrs(v.adj, 1);
    forall x | x in data ensures x in Candidates(g, [vertex], p) {
      assert x in Elements(data) && x in g.adj[vertex];
      assert AllAdjacent(g, [vertex], p, x);
      var k :| 0 <= k < |g.adj[vertex]| && g.adj[vertex][k] == x;
    }
  }

  lemma {:induction false} PlanSizes(v: Plan)
    requires v.Valid()
    ensures |v.adj| == v.n >= 2 && v.optimizeNum < v.n && Square(v.adj, |v.adj|)
  {
    hide GoodTables, Independent, Tree, LoopsBuilt, Restrictions, Connected;
  }

  lemma {:induction false} LiveSize(g: Graph, v: Plan, vs: seq<seq<nat>>, f: seq<nat>)
    requires Live(g, v, vs, f)
    ensures |vs| == |v.prefix|
  {
  }

  lemma {:induction false} SameSize(v: Plan, a: seq<seq<nat>>, b: seq<seq<nat>>, d: nat)
    requires SameBelow(v, a, b, d)
    ensures |b| == |v.prefix|
  {
  }

  lemma {:induction false} NothingLives(g: Graph, v: Plan, vs: seq<seq<nat>>)
    requires |vs| == |v.prefix|
    ensures Live(g, v, vs, [])
  {
  }

  lemma {:induction false} ThroughNothing(c: Problem, f: seq<nat>, data: seq<nat>)
    requires c.Valid()
    ensures |Through(c, f, Elements(data[..0]))| == 0
  {
    assert Through(c, f, Elements(data[..0])) == {};
  }

  lemma {:induction false} NothingBelow(c: Problem)
    requires c.Valid()
    ensures |Through(c, [], Below(0))| == 0
  {
    assert Through(c, [], Below(0)) == {};
  }

  /** One more first vertex. */
  lemma {:induction false} OneMoreBelow(c: Problem, x: nat)
    requires c.Valid() && c.q.n > 0
    ensures |Through(c, [], Below(x + 1))| == |Through(c, [], Below(x))| + |Extending(c, [x])|
  {
    hide *;
    ThroughMore(c, [], Below(x), x);
    assert Below(x) + {x} == Below(x + 1);
    assert [] + [x] == [x];
  }

  lemma {:induction false} EverythingBelow(c: Problem)
    requires c.Valid() && c.q.n > 0
    ensures Through(c, [], Below(c.V())) == All(c)
  {
    ThroughAll(c, [], Below(c.V()));
    assert Extending(c, []) == All(c);
  }

  lemma {:induction false} FirstIsNext(g: Graph, v: Plan, x: nat)
    requires g.Valid() && v.Valid() && x < |g.adj|
    ensures Partial(Goal(g, v), []) && Next(Goal(g, v), [], x)
  {
    hide Tree, LoopsBuilt, Connected, GoodTables, Independent;
    var c := Goal(g, v);
    forall k | 0 <= k < |c.r| ensures c.r[k].1 != 0 {
      assert c.r[k] in v.pairs;
    }
  }

  lemma {:induction false} InGraph(g: Graph, data: seq<nat>, f: seq<nat>, p: seq<nat>)
    requires Lists(data, Candidates(g, f, p))
    ensures forall x :: x in data ==> x < |g.adj|
  {
    forall x | x in data ensures x < |g.adj| {
      assert x in Elements(data);
    }
  }

  /** The lists of the last optimizeNum loops are live already. */
  ghost predicate RestLists(g: Graph, v: Plan, vs: seq<seq<nat>>, f: seq<nat>)
    requires v.Valid() && |f| + v.optimizeNum == v.n
  {
    forall i :: 0 <= i < v.optimizeNum ==> RestList(g, v, vs, f, i)
  }

  ghost predicate RestList(g: Graph, v: Plan, vs: seq<seq<nat>>, f: seq<nat>, i: nat)
    requires v.Valid() && |f| + v.optimizeNum == v.n && i < v.optimizeNum
  {
    && 0 <= v.loopSet[|f| + i] < |vs|
    && Lists(vs[v.loopSet[|f| + i]], Rest(g, v.adj, f, v.optimizeNum)[i])
  }

  lemma {:induction false} LateNbrs(adj: Matrix, from: nat, i: nat)
    requires Square(adj, |adj|) && from <= i < |adj| && Independent(adj, from)
    ensures forall j :: 0 <= j < |Nbrs(adj, i)| ==> Nbrs(adj, i)[j] < from
  {
    forall j | 0 <= j < |Nbrs(adj, i)| ensures Nbrs(adj, i)[j] < from {
      assert adj[i][Nbrs(adj, i)[j]];
    }
  }

  lemma {:induction false} RestListLives(g: Graph, v: Plan, vs: seq<seq<nat>>, f: seq<nat>, i: nat)
    requires g.Valid() && v.Valid() && Live(g, v, vs, f) && |f| > 0
    requires i < v.optimizeNum && |f| + v.optimizeNum == v.n
    ensures RestList(g, v, vs, f, i)
  {
    hide Live, Tree, Restrictions, Connected, Lists, GoodTables, Used, LoopsBuilt, Nbrs, Candidates, Independent;
    LateNbrs(v.adj, |f|, |f| + i);
    LoopSetLives(g, v, vs, f, |f| + i);
  }

  lemma {:induction false} RestLives(g: Graph, v: Plan, vs: seq<seq<nat>>, f: seq<nat>)
    requires g.Valid() && v.Valid() && Live(g, v, vs, f) && |f| > 0
    requires 0 < v.optimizeNum && |f| + v.optimizeNum == v.n
    ensures RestLists(g, v, vs, f)
  {
    hide Live, Plan.Valid, RestList;
    forall i | 0 <= i < v.optimizeNum ensures RestList(g, v, vs, f, i) {
      RestListLives(g, v, vs, f, i);
    }
  }

  lemma {:induction false} GoalSettled(g: Graph, v: Plan)
    requires g.Valid() && v.Valid() && 0 < v.optimizeNum
    ensures Settled(Goal(g, v), v.n - v.optimizeNum)
  {
    hide Tree, LoopsBuilt, Restrictions, Connected;
    var c, d := Goal(g, v), v.n - v.optimizeNum;
    forall k | 0 <= k < |c.r| ensures c.r[k].1 < d {
      assert c.r[k] in c.r;
    }
  }

  lemma {:induction false} BranchSettled(g: Graph, v: Plan, f: seq<nat>)
    requires g.Valid() && v.Valid() && 0 < v.optimizeNum && |f| + v.optimizeNum == v.n
    requires Partial(Goal(g, v), f)
    ensures |Extending(Goal(g, v), f)| == |InjectiveChoices(FreeRest(g, v.adj, f, v.optimizeNum))|
  {
    hide Plan.Valid, Partial, Settled, Separates, Extending, InjectiveChoices, FreeRest;
    GoalSettled(g, v);
    SettledSeparates(Goal(g, v), f);
    FinishingIsChoosing(Goal(g, v), f, FreeRest(g, v.adj, f, v.optimizeNum));
  }

  lemma {:induction false} MeetingOfOne(s: Family, block: seq<nat>)
    requires |block| == 1 && block[0] < |s|
    ensures Meeting(s, block) == s[block[0]]
  {
  }

  lemma {:induction false} MeetingOfTwo(s: Family, block: seq<nat>)
    requires |block| == 2 && block[0] < |s| && block[1] < |s|
    ensures Meeting(s, block) == s[block[0]] * s[block[1]]
  {
  }

  lemma {:induction false} MeetingGrows(s: Family, block: seq<nat>, i: nat)
    requires 0 < i && |block| == i + 1 && forall j :: 0 <= j < |block| ==> block[j] < |s|
    ensures Meeting(s, block) == Meeting(s, block[..i]) * s[block[i]]
  {
  }

  lemma {:induction false} NoBoundYet(pairs: seq<Pair>, f: seq<nat>, d: nat, limit: nat)
    ensures IsBound(pairs, f, d, |pairs|, limit, limit)
  {
    forall x: nat ensures BoundedFrom(pairs, f, d, |pairs|, x) {}
  }

  lemma {:induction false} SameBelowItself(v: Plan, a: seq<seq<nat>>, d: nat)
    requires |a| == |v.prefix|
    ensures SameBelow(v, a, a, d)
  {
  }

  lemma {:induction false} AboveAt(g: Graph, v: Plan, vs: seq<seq<nat>>, h: seq<nat>, e: nat)
    requires |h| > 0 && LiveAbove(g, v, vs, h, e - 1) && e < |vs|
    requires |v.prefix[e]| > 0 && LastOf(v.prefix[e]) == |h| - 1
    ensures LiveAt(g, v, vs, h, e)
  {
    assert Rebuilt(v.prefix[e], |h| - 1, e, e - 1);
  }

  lemma {:induction false} FirstEntry(g: Graph, v: Plan, vs: seq<seq<nat>>, f: seq<nat>, x: nat)
    requires v.Valid() && Live(g, v, vs, f) && |f| < v.n
    ensures -1 <= v.last[|f|] < |v.prefix|
    ensures v.last[|f|] >= 0 ==> LastOf(v.prefix[v.last[|f|]]) == |f|
    ensures LiveAbove(g, v, vs, f + [x], v.last[|f|]) && |vs| == |v.prefix|
  {
    hide LiveAt, LoopsBuilt, Restrictions, FatherOf, Connected;
    LiveStarts(g, v, vs, f, x);
    assert Newest(Keys(v.prefix), v.last[|f|], |f|, |v.prefix|);
    assert LiveAbove(g, v, vs, f + [x], |v.prefix| - 1);
    WalkStep(g, v, vs, f + [x], |v.prefix|, v.last[|f|]);
  }

  lemma {:induction false} NextEntry(g: Graph, v: Plan, vs: seq<seq<nat>>, f: seq<nat>, x: nat, e: nat)
    requires v.Valid() && |f| < v.n && e < |v.prefix| && LastOf(v.prefix[e]) == |f|
    requires LiveAbove(g, v, vs, f + [x], e - 1)
    ensures -1 <= v.next[e] < e
    ensures v.next[e] >= 0 ==> LastOf(v.prefix[v.next[e]]) == |f|
    ensures LiveAbove(g, v, vs, f + [x], v.next[e])
  {
    hide LiveAt, LiveAbove, LoopsBuilt, Restrictions, FatherOf, Connected;
    assert Keys(v.prefix)[e] == |f|;
    assert Newest(Keys(v.prefix), v.next[e], |f|, e);
    WalkStep(g, v, vs, f + [x], e, v.next[e]);
  }

  lemma {:induction false} FatherLives(g: Graph, v: Plan, vs: seq<seq<nat>>, f: seq<nat>, x: nat, e: nat)
    requires v.Valid() && |f| < v.n && e < |v.prefix| && LastOf(v.prefix[e]) == |f|
    requires LiveAbove(g, v, vs, f + [x], e) && v.father[e] != -1
    ensures 0 <= v.father[e] < |vs| && Sorted(vs[v.father[e]])
  {
    hide LoopsBuilt, Restrictions, Connected, Linked;
    var a := v.father[e];
    assert FatherOf(v.prefix, v.father, e) && IsPrefix(v.prefix[e], v.n);
    assert LastOf(v.prefix[a]) == v.prefix[e][|v.prefix[e]| - 2] < |f|;
    assert LiveAt(g, v, vs, f + [x], a);
  }
}
