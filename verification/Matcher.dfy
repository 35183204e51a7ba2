/** The interpreter: recursive matching over live prefix sets, with its early exits
    and the inclusion-exclusion leaf. */
module Matcher {
  import opened Counting
  import opened Patterns
  import opened LinkedKeys
  import opened Schedules
  import opened SortedLists
  import opened Completions
  import opened InclusionExclusion
  import opened ExclusionGroups

  /** The finished schedule, as the interpreter reads it. */
  datatype Plan = Plan(
    n: nat, adj: Matrix,
    prefix: seq<seq<nat>>, father: seq<int>, last: seq<int>, next: seq<int>, loopSet: seq<int>,
    pairs: seq<Pair>, restrictLast: seq<int>, restrictNext: seq<int>, restrictIndex: seq<nat>,
    optimizeNum: nat, groups: seq<seq<seq<nat>>>, vals: seq<int>)
  {
    ghost predicate Valid() {
      && n >= 2 && Query(n, adj, false).Valid() && Connected(adj)
      && Tree(prefix, father, last, next, n)
      && LoopsBuilt(adj, prefix, loopSet, n)
      && Restrictions(pairs, restrictLast, restrictNext, restrictIndex, n)
      && ExclusionFits()
    }

    /** Inclusion-exclusion applies to the last optimizeNum vertices, which are
        pairwise non-adjacent. */
    ghost predicate ExclusionFits()
      requires Square(adj, n)
    {
      && optimizeNum < n
      && (optimizeNum > 0 ==> GoodTables(optimizeNum, groups, vals) && Independent(adj, n - optimizeNum))
    }
  }

  ghost predicate Independent(adj: Matrix, from: nat)
    requires Square(adj, |adj|)
  {
    forall i, j :: from <= i < |adj| && from <= j < |adj| ==> !adj[i][j]
  }

  /** What the plan has to count in g. */
  ghost function Goal(g: Graph, v: Plan): (c: Problem)
    requires g.Valid() && v.Valid()
    ensures c.Valid() && !c.q.induced
  {
    Problem(g, Query(v.n, v.adj, false), Enforced(v.pairs, v.n - v.optimizeNum))
  }

  // ----- live prefix sets -----

  ghost predicate LiveAt(g: Graph, v: Plan, vs: seq<seq<nat>>, f: seq<nat>, p: nat)
    requires p < |vs| == |v.prefix|
  {
    Lists(vs[p], Candidates(g, f, v.prefix[p]))
  }

  /** Every prefix over matched vertices has its set built. */
  ghost predicate Live(g: Graph, v: Plan, vs: seq<seq<nat>>, f: seq<nat>) {
    && |vs| == |v.prefix|
    && forall p :: 0 <= p < |vs| && |v.prefix[p]| > 0 && LastOf(v.prefix[p]) < |f| ==> LiveAt(g, v, vs, f, p)
  }

  ghost predicate Rebuilt(prefix: seq<nat>, d: nat, p: nat, e: int) {
    |prefix| > 0 && (LastOf(prefix) < d || (LastOf(prefix) == d && e < p))
  }

  /** Also the prefixes ending in the newest vertex, from entry e + 1 on. */
  ghost predicate LiveAbove(g: Graph, v: Plan, vs: seq<seq<nat>>, f: seq<nat>, e: int) {
    && |vs| == |v.prefix| && |f| > 0
    && forall p :: 0 <= p < |vs| && Rebuilt(v.prefix[p], |f| - 1, p, e) ==> LiveAt(g, v, vs, f, p)
  }

  /** Sets below depth d are the same. */
  ghost predicate SameBelow(v: Plan, a: seq<seq<nat>>, b: seq<seq<nat>>, d: nat) {
    && |a| == |b| == |v.prefix|
    && forall p :: 0 <= p < |a| && |v.prefix[p]| > 0 && LastOf(v.prefix[p]) < d ==> a[p] == b[p]
  }

  lemma {:induction false} LiveKept(g: Graph, v: Plan, a: seq<seq<nat>>, b: seq<seq<nat>>, f: seq<nat>)
    requires Live(g, v, a, f) && SameBelow(v, a, b, |f|)
    ensures Live(g, v, b, f)
  {
    forall p | 0 <= p < |b| && |v.prefix[p]| > 0 && LastOf(v.prefix[p]) < |f| ensures LiveAt(g, v, b, f, p) {
      assert LiveAt(g, v, a, f, p);
    }
  }

  /** A prefix over f alone does not notice the next vertex. */
  lemma {:induction false} CandidatesKept(g: Graph, f: seq<nat>, x: nat, p: seq<nat>)
    requires IsPrefix(p, |f|)
    ensures Candidates(g, f + [x], p) == Candidates(g, f, p)
  {
    forall j | 0 <= j < |p| ensures p[j] < |f| {
      assert j < |p| - 1 ==> p[j] < p[|p| - 1];
    }
    forall y: nat ensures AllAdjacent(g, f + [x], p, y) <==> AllAdjacent(g, f, p, y) {
      SameAdjacent(g, f, x, p, y);
    }
  }

  lemma {:induction false} SameAdjacent(g: Graph, f: seq<nat>, x: nat, p: seq<nat>, y: nat)
    requires forall j :: 0 <= j < |p| ==> p[j] < |f|
    ensures AllAdjacent(g, f + [x], p, y) <==> AllAdjacent(g, f, p, y)
  {
    forall j | 0 <= j < |p| ensures (f + [x])[p[j]] == f[p[j]] {}
  }

  lemma {:induction false} LiveStarts(g: Graph, v: Plan, vs: seq<seq<nat>>, f: seq<nat>, x: nat)
    requires v.Valid() && Live(g, v, vs, f) && |f| < v.n
    ensures forall e :: |vs| - 1 <= e ==> LiveAbove(g, v, vs, f + [x], e)
  {
    forall p | 0 <= p < |vs| && LastOf(v.prefix[p]) < |f| ensures LiveAt(g, v, vs, f + [x], p) {
      assert IsPrefix(v.prefix[p], v.n) && LiveAt(g, v, vs, f, p);
      CandidatesKept(g, f, x, v.prefix[p]);
    }
  }

  /** Intersecting the father's set with the new vertex's row. */
  lemma {:induction false} ChildCandidates(g: Graph, f: seq<nat>, x: nat, p: seq<nat>)
    requires g.Valid() && IsPrefix(p, |f| + 1) && LastOf(p) == |f| && x < |g.adj|
    ensures |p| == 1 ==> Candidates(g, f + [x], p) == Elements(g.adj[x])
    ensures |p| > 1 ==> Candidates(g, f + [x], p) == Candidates(g, f + [x], p[..|p| - 1]) * Elements(g.adj[x])
  {
    var h, shorter := f + [x], p[..|p| - 1];
    forall y: nat
      ensures y in Candidates(g, h, p) <==> AllAdjacent(g, h, shorter, y) && y in g.adj[x] && y < |g.adj|
    {
      assert h[p[|p| - 1]] == x;
      if AllAdjacent(g, h, p, y) {
        forall j | 0 <= j < |shorter| ensures shorter[j] < |h| && g.Edge(h[shorter[j]], y) {
          assert shorter[j] == p[j];
        }
      }
      if AllAdjacent(g, h, shorter, y) && g.Edge(x, y) {
        forall j | 0 <= j < |p| ensures p[j] < |h| && g.Edge(h[p[j]], y) {
          assert j < |p| - 1 ==> shorter[j] == p[j];
        }
      }
    }
    forall y | y in g.adj[x] ensures y < |g.adj| {
      var k :| 0 <= k < |g.adj[x]| && g.adj[x][k] == y;
    }
    if |p| == 1 {
      assert Candidates(g, h, p) == Elements(g.adj[x]);
    } else {
      assert Candidates(g, h, p) == Candidates(g, h, shorter) * Elements(g.adj[x]);
    }
  }

  /** Rebuilding entry e makes it live. */
  lemma {:induction false} EntryBuilt(g: Graph, v: Plan, vs: seq<seq<nat>>, f: seq<nat>, x: nat, e: nat, built: seq<nat>)
    requires g.Valid() && v.Valid() && |f| < v.n && x < |g.adj|
    requires e < |v.prefix| && LastOf(v.prefix[e]) == |f|
    requires LiveAbove(g, v, vs, f + [x], e)
    requires v.father[e] == -1 ==> built == g.adj[x]
    requires v.father[e] != -1 ==> 0 <= v.father[e] < |vs| && Lists(built, Elements(vs[v.father[e]]) * Elements(g.adj[x]))
    ensures LiveAbove(g, v, vs[e := built], f + [x], e - 1)
  {
    var p, h := v.prefix[e], f + [x];
    assert FatherOf(v.prefix, v.father, e) && IsPrefix(p, v.n);
    ChildCandidates(g, f, x, p);
    if |p| > 1 {
      var a := v.father[e];
      assert LastOf(v.prefix[a]) == p[|p| - 2] < p[|p| - 1];
      assert LiveAt(g, v, vs, h, a);
    }
    var vs' := vs[e := built];
    assert LiveAt(g, v, vs', h, e);
    forall q | 0 <= q < |vs'| && Rebuilt(v.prefix[q], |f|, q, e - 1) ensures LiveAt(g, v, vs', h, q) {
      assert q != e ==> LiveAt(g, v, vs, h, q);
    }
  }

  /** Entries the walk skips do not end in the newest vertex. */
  lemma {:induction false} WalkStep(g: Graph, v: Plan, vs: seq<seq<nat>>, h: seq<nat>, from: int, e: int)
    requires v.Valid() && 0 < |h| <= v.n && 0 <= from <= |v.prefix| && LiveAbove(g, v, vs, h, from - 1)
    requires -1 <= e < from && Newest(Keys(v.prefix), e, |h| - 1, from)
    ensures LiveAbove(g, v, vs, h, e)
  {
    hide LiveAt, Linked, FatherOf, LoopsBuilt, Connected, Restrictions;
    forall p | e < p < from ensures LastOf(v.prefix[p]) != |h| - 1 {
      assert Keys(v.prefix)[p] != |h| - 1;
    }
  }

  lemma {:induction false} WalkDone(g: Graph, v: Plan, vs: seq<seq<nat>>, h: seq<nat>)
    requires |h| > 0 && LiveAbove(g, v, vs, h, -1)
    ensures Live(g, v, vs, h)
  {
    hide LiveAt;
    forall p | 0 <= p < |vs| && |v.prefix[p]| > 0 && LastOf(v.prefix[p]) < |h| ensures LiveAt(g, v, vs, h, p) {
      assert Rebuilt(v.prefix[p], |h| - 1, p, -1);
    }
  }

  /** Every stored prefix belongs to the neighbours of some later vertex. */
  lemma {:induction false} PrefixServes(v: Plan, e: nat) returns (k: nat)
    requires v.Valid() && e < |v.prefix|
    ensures IsPrefix(v.prefix[e], v.n) && 1 <= k < v.n && |v.adj| == v.n && v.prefix[e] <= Nbrs(v.adj, k)
  {
    hide Linked, FatherOf, Restrictions, Connected, Plan.ExclusionFits, Nbrs;
    assert Used(v.adj, v.prefix[e], v.n);
    k :| 1 <= k < v.n && v.prefix[e] <= Nbrs(v.adj, k);
  }

  /** An empty rebuilt set means no match continues this way. */
  lemma {:induction false} EmptyEntry(g: Graph, v: Plan, vs: seq<seq<nat>>, h: seq<nat>, e: nat)
    requires g.Valid() && v.Valid() && e < |vs| == |v.prefix| && LiveAt(g, v, vs, h, e)
    requires LastOf(v.prefix[e]) < |h| && vs[e] == []
    ensures Extending(Goal(g, v), h) == {}
  {
    hide Plan.Valid, Graph.Valid, Nbrs, Extending, Candidates, Enforced;
    var p := v.prefix[e];
    var k := PrefixServes(v, e);
    forall j | 0 <= j < |p| ensures p[j] < |h| {
      assert j < |p| - 1 ==> p[j] < p[|p| - 1];
    }
    EmptyPrefixKills(Goal(g, v), h, p, k);
  }

  // ----- restrictions during matching -----

  /** x respects the restrictions from entry `lo` on that end in vertex d. */
  ghost predicate BoundedFrom(pairs: seq<Pair>, f: seq<nat>, d: nat, lo: int, x: nat) {
    forall k :: 0 <= k < |pairs| && lo <= k && pairs[k].1 == d && pairs[k].0 < |f| ==> x < f[pairs[k].0]
  }

  /** m separates the admissible vertices below `limit` from the rest. */
  ghost predicate IsBound(pairs: seq<Pair>, f: seq<nat>, d: nat, lo: int, limit: nat, m: nat) {
    forall x: nat :: x < m <==> x < limit && BoundedFrom(pairs, f, d, lo, x)
  }

  lemma {:induction false} SkipBounds(pairs: seq<Pair>, f: seq<nat>, d: nat, lo: nat, e: int, x: nat)
    requires lo <= |pairs| && -1 <= e < lo && Newest(Seconds(pairs), e, d, lo)
    ensures BoundedFrom(pairs, f, d, e + 1, x) <==> BoundedFrom(pairs, f, d, lo, x)
  {
    forall k | e < k < lo ensures pairs[k].1 != d {
      assert Seconds(pairs)[k] != d;
    }
  }

  lemma {:induction false} BoundStep(pairs: seq<Pair>, f: seq<nat>, d: nat, lo: nat, e: int, limit: nat, m: nat)
    requires lo <= |pairs| && -1 <= e < lo && Newest(Seconds(pairs), e, d, lo)
    requires IsBound(pairs, f, d, lo, limit, m)
    ensures IsBound(pairs, f, d, e + 1, limit, m)
  {
    hide BoundedFrom;
    var hi := e + 1;
    forall x: nat ensures BoundedFrom(pairs, f, d, hi, x) <==> BoundedFrom(pairs, f, d, lo, x) {
      SkipBounds(pairs, f, d, lo, e, x);
    }
  }

  lemma {:induction false} BoundTake(pairs: seq<Pair>, f: seq<nat>, d: nat, e: nat, limit: nat, m: nat)
    requires e < |pairs| && pairs[e].1 == d && pairs[e].0 < |f|
    requires IsBound(pairs, f, d, e + 1, limit, m)
    ensures IsBound(pairs, f, d, e, limit, if m > f[pairs[e].0] then f[pairs[e].0] else m)
  {
    var y := f[pairs[e].0];
    forall x: nat ensures BoundedFrom(pairs, f, d, e, x) <==> BoundedFrom(pairs, f, d, e + 1, x) && x < y {
    }
  }

  ghost predicate Obeys(r: seq<Pair>, f: seq<nat>, x: nat) {
    forall k :: 0 <= k < |r| && r[k].1 == |f| && r[k].0 < |f| ==> x < f[r[k].0]
  }

  lemma {:induction false} EnforcedObeys(r: seq<Pair>, limit: nat, f: seq<nat>, x: nat)
    requires |f| < limit
    ensures Obeys(Enforced(r, limit), f, x) <==> BoundedFrom(r, f, |f|, 0, x)
  {
    var c := Enforced(r, limit);
    if BoundedFrom(r, f, |f|, 0, x) {
      forall k | 0 <= k < |c| && c[k].1 == |f| && c[k].0 < |f| ensures x < f[c[k].0] {
        assert c[k] in r;
      }
    }
    if Obeys(c, f, x) {
      forall k | 0 <= k < |r| && r[k].1 == |f| && r[k].0 < |f| ensures x < f[r[k].0] {
        assert r[k] in c;
      }
    }
  }

  lemma {:induction false} BoundIsNext(g: Graph, v: Plan, f: seq<nat>, m: nat, x: nat)
    requires g.Valid() && v.Valid() && |f| < v.n - v.optimizeNum
    requires IsBound(v.pairs, f, |f|, 0, |g.adj|, m)
    ensures Next(Goal(g, v), f, x) <==>
      x in Candidates(g, f, Nbrs(v.adj, |f|)) && x !in f && x < m
  {
    hide Enforced, BoundedFrom, Nbrs, Tree, LoopsBuilt, Independent, Connected, Next, AllAdjacent;
    LoopSetIsNext(Goal(g, v), f, x);
    EnforcedObeys(v.pairs, v.n - v.optimizeNum, f, x);
  }

  // ----- the inclusion-exclusion leaf -----

  /** The candidate sets of the k vertices after f. */
  ghost function Rest(g: Graph, adj: Matrix, f: seq<nat>, k: nat): (r: Family)
    requires Square(adj, |adj|) && |f| + k == |adj|
    ensures |r| == k
  {
    seq(k, i requires 0 <= i < k => Candidates(g, f, Nbrs(adj, |f| + i)))
  }

  ghost function Outside(s: Family, x: set<nat>): (r: Family)
    ensures |r| == |s|
  {
    seq(|s|, i requires 0 <= i < |s| => s[i] - x)
  }

  ghost function FreeRest(g: Graph, adj: Matrix, f: seq<nat>, k: nat): (r: Family)
    requires Square(adj, |adj|) && |f| + k == |adj|
    ensures |r| == k
  {
    Outside(Rest(g, adj, f, k), Elements(f))
  }

  ghost predicate Settled(c: Problem, d: nat)
    requires c.Valid()
  {
    d <= c.q.n && Independent(c.q.adj, d) && forall k :: 0 <= k < |c.r| ==> c.r[k].1 < d
  }

  lemma {:induction false} LongerCandidates(g: Graph, f: seq<nat>, t: seq<nat>, p: seq<nat>)
    requires forall j :: 0 <= j < |p| ==> p[j] < |f|
    ensures Candidates(g, f + t, p) == Candidates(g, f, p)
  {
    forall x: nat ensures AllAdjacent(g, f + t, p, x) <==> AllAdjacent(g, f, p, x) {
      forall j | 0 <= j < |p| ensures (f + t)[p[j]] == f[p[j]] {}
    }
  }

  lemma {:induction false} SettledNbrs(adj: Matrix, d: nat, i: nat)
    requires Square(adj, |adj|) && Independent(adj, d) && d <= i < |adj|
    ensures forall j :: 0 <= j < |Nbrs(adj, i)| ==> Nbrs(adj, i)[j] < d
  {
    forall j | 0 <= j < |Nbrs(adj, i)| ensures Nbrs(adj, i)[j] < d {
      assert adj[i][Nbrs(adj, i)[j]];
    }
  }

  /** When nothing constrains the remaining vertices among each other, one of them
      may be x exactly if x is a fresh candidate not used by its siblings. */
  lemma {:induction false} SettledNext(c: Problem, f: seq<nat>, t: seq<nat>, x: nat)
    requires c.Valid() && !c.q.induced && |f| + |t| < c.q.n && Settled(c, |f|)
    ensures Next(c, f + t, x) <==>
      x in Candidates(c.g, f, Nbrs(c.q.adj, |f| + |t|)) && x !in f && x !in t
  {
    hide Next, Nbrs, Candidates, Independent;
    var h := f + t;
    SettledNbrs(c.q.adj, |f|, |h|);
    LongerCandidates(c.g, f, t, Nbrs(c.q.adj, |h|));
    assert forall k :: 0 <= k < |c.r| ==> c.r[k].1 != |h|;
    LoopSetIsNext(c, h, x);
  }

  /** The vertices after f are constrained by their own set and by being distinct, only. */
  ghost predicate Separates(c: Problem, f: seq<nat>, s: Family)
    requires c.Valid()
  {
    |f| + |s| == c.q.n && forall t, x :: ChoosesFrom(c, f, s, t, x)
  }

  ghost predicate ChoosesFrom(c: Problem, f: seq<nat>, s: Family, t: seq<nat>, x: nat)
    requires c.Valid() && |f| + |s| == c.q.n
  {
    |t| < |s| ==> (Next(c, f + t, x) <==> x in s[|t|] && x !in t)
  }

  lemma {:induction false} SettledSeparates(c: Problem, f: seq<nat>)
    requires c.Valid() && !c.q.induced && |f| <= c.q.n && Settled(c, |f|)
    ensures Separates(c, f, FreeRest(c.g, c.q.adj, f, c.q.n - |f|))
  {
    hide Next;
    var s := FreeRest(c.g, c.q.adj, f, c.q.n - |f|);
    forall t, x ensures ChoosesFrom(c, f, s, t, x) {
      if |t| < |s| {
        SettledNext(c, f, t, x);
      }
    }
  }

  lemma {:induction false} ChoiceMatches(c: Problem, f: seq<nat>, s: Family, t: seq<nat>)
    requires c.Valid() && |f| <= c.q.n && Partial(c, f) && Separates(c, f, s)
    requires IsChoice(t, s) && Injective(t)
    ensures f + t in Extending(c, f)
  {
    hide Next;
    var h := f + t;
    forall i | 0 <= i < |h| ensures Next(c, h[..i], h[i]) {
      if i < |f| {
        assert h[..i] == f[..i];
      } else {
        var j := i - |f|;
        assert h[..i] == f + t[..j];
        assert ChoosesFrom(c, f, s, t[..j], t[j]);
      }
    }
    FullPartialMatches(c, h);
  }

  lemma {:induction false} MatchIsChoice(c: Problem, f: seq<nat>, s: Family, h: seq<nat>)
    requires c.Valid() && Separates(c, f, s) && h in Extending(c, f)
    ensures IsChoice(h[|f|..], s) && Injective(h[|f|..])
  {
    hide Next;
    var t := h[|f|..];
    forall j | 0 <= j < |t| ensures t[j] in s[j] {
      MatchIsNext(c, h, |f| + j);
      assert h[..|f| + j] == f + t[..j];
      assert ChoosesFrom(c, f, s, t[..j], t[j]);
    }
  }

  /** The branch: the ways to finish f are the injective choices from those sets. */
  lemma {:induction false} FinishingIsChoosing(c: Problem, f: seq<nat>, s: Family)
    requires c.Valid() && |f| <= c.q.n && Partial(c, f) && Separates(c, f, s)
    ensures |Extending(c, f)| == |InjectiveChoices(s)|
  {
    hide Partial, Separates;
    var ts := InjectiveChoices(s);
    var add := (t: seq<nat>) => f + t;
    forall a, b | a in ts && b in ts && add(a) == add(b) ensures a == b {
      assert add(a)[|f|..] == a && add(b)[|f|..] == b;
    }
    ImageSize(add, ts);
    forall h ensures h in Image(add, ts) <==> h in Extending(c, f) {
      if h in Extending(c, f) {
        MatchIsChoice(c, f, s, h);
        assert add(h[|f|..]) == h;
      }
      if h in Image(add, ts) {
        var t :| t in ts && add(t) == h;
        ChoiceMatches(c, f, s, t);
      }
    }
    assert Image(add, ts) == Extending(c, f);
  }

  ghost function Meeting(s: Family, block: seq<nat>): (r: set<nat>)
    requires |block| > 0 && forall j :: 0 <= j < |block| ==> block[j] < |s|
  {
    var n := |block| - 1;
    if n == 0 then s[block[0]] else Meeting(s, block[..n]) * s[block[n]]
  }

  lemma {:induction false} MeetingIsAll(s: Family, block: seq<nat>, y: nat)
    requires |block| > 0 && forall j :: 0 <= j < |block| ==> block[j] < |s|
    ensures y in Meeting(s, block) <==> forall j :: 0 <= j < |block| ==> y in s[block[j]]
  {
    var n := |block| - 1;
    if n > 0 {
      MeetingIsAll(s, block[..n], y);
      if y in Meeting(s, block) {
        forall j | 0 <= j < |block| ensures y in s[block[j]] {
          assert j < n ==> block[..n][j] == block[j];
        }
      }
    }
  }

  lemma {:induction false} CommonIsMeeting(s: Family, x: set<nat>, block: seq<nat>)
    requires |block| > 0 && forall j :: 0 <= j < |block| ==> block[j] < |s|
    ensures Common(Outside(s, x), block) == Meeting(s, block) - x
  {
    var w := Outside(s, x);
    InEverything(w, block[0]);
    forall y: nat ensures y in Common(w, block) <==> y in Meeting(s, block) - x {
      MeetingIsAll(s, block, y);
      if y in Common(w, block) {
        assert y in w[block[0]];
        forall j | 0 <= j < |block| ensures y in s[block[j]] {
          assert y in w[block[j]];
        }
      }
      if y in Meeting(s, block) - x {
        forall j | 0 <= j < |block| ensures y in w[block[j]] {
          assert y in s[block[j]];
        }
        assert y in w[block[0]];
      }
    }
  }

  // ----- the loop over one candidate list -----

  lemma {:induction false} ThroughStep(c: Problem, f: seq<nat>, data: seq<nat>, i: nat)
    requires c.Valid() && |f| < c.q.n && Sorted(data) && i < |data|
    ensures |Through(c, f, Elements(data[..i + 1]))|
      == |Through(c, f, Elements(data[..i]))| + |Extending(c, f + [data[i]])|
  {
    hide Through, Extending;
    assert data[..i + 1] == data[..i] + [data[i]];
    assert Elements(data[..i + 1]) == Elements(data[..i]) + {data[i]};
    assert data[i] !in data[..i];
    ThroughMore(c, f, Elements(data[..i]), data[i]);
  }

  lemma {:induction false} ZeroStays(s: Family, val: int, group: seq<seq<nat>>, k: nat)
    requires k <= |group| && GroupFits(group, |s|) && GroupProduct(s, val, group, k) == 0
    ensures GroupProduct(s, val, group, |group|) == 0
    decreases |group| - k
  {
    if k < |group| {
      ZeroStays(s, val, group, k + 1);
    }
  }
}
