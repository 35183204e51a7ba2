/** restricts_generate: keep the candidate restriction sets that count right on a
    complete graph, and conclude that they count right on every graph. */
module RestrictGeneration {
  import opened Arithmetic
  import opened Counting
  import opened Patterns
  import opened Symmetry
  import opened Permutations
  import opened RestrictEmission
  import opened RestrictSearch
  import opened RestrictClique
  import opened Schedules
  import opened Matcher
  import opened Completions
  import opened Interpreter

  /** What the interpreter reads of a schedule without inclusion-exclusion. */
  method Finish(s: Schedule) returns (v: Plan)
    requires s.Valid() && s.size >= 2 && Query(s.size, s.adjMat, false).Valid() && Connected(s.adjMat)
    ensures v.Valid() && v.optimizeNum == 0
    ensures v.n == s.size && v.adj == s.adjMat && v.pairs == s.restrictPair && InOrder(v.pairs, v.n)
  {
    v := Plan(s.size, s.adjMat, s.prefix, s.fatherPrefixId, s.last, s.next, s.loopSetPrefixId,
      s.restrictPair, s.restrictLast, s.restrictNext, s.restrictIndex, 0, [], []);
  }

  /** Counts the restricted matches of q in g. */
  method Count(g: Graph, q: Query, s: Schedule) returns (ans: int)
    requires g.Valid() && q.Valid() && !q.induced && q.n >= 2 && Connected(q.adj)
    requires s.Valid() && s.size == q.n && s.adjMat == q.adj
    ensures ans == |Matches(g, q, s.restrictPair)|
  {
    hide Graph.Valid, Connected, Schedule.Valid, Plan.Valid, Worker.Ready, InOrder, Enforced, Matches;
    assert q == Query(s.size, s.adjMat, false);
    var v := Finish(s);
    var w := new Worker(g, v);
    ans := w.PatternMatching();
    AllEnforced(v.pairs, v.n);
  }

  lemma {:induction false} CompleteIsValid(m: nat)
    ensures Complete(m).Valid()
  {
    var g := Complete(m);
    forall u: nat, w: nat | g.Edge(u, w) ensures g.Edge(w, u) {
      assert w in Others(u, m);
    }
    forall u, k | 0 <= u < m && 0 <= k < |g.adj[u]| ensures g.adj[u][k] < m && g.adj[u][k] != u {
      assert g.adj[u][k] in Others(u, m);
    }
  }

  /** Equal meaning, equal matches. */
  lemma {:induction false} SameMatches(g: Graph, q: Query, r: seq<Pair>, t: seq<Pair>)
    requires q.Valid() && forall f :: Ordered(r, f) <==> Ordered(t, f)
    ensures Matches(g, q, r) == Matches(g, q, t)
  {
  }

  /** Restricted counts agree on the complete graph exactly when r breaks the symmetry. */
  lemma {:induction false} TestDecides(q: Query, r: seq<Pair>)
    requires q.Valid() && !q.induced && AtMostOneImage(q, r)
    ensures |Automorphisms(q)| > 0
    ensures |Matches(Complete(q.n + 1), q, r)| == |Matches(Complete(q.n + 1), q, [])| / |Automorphisms(q)|
      <==> BreaksSymmetry(q, r)
  {
    hide Matches, Automorphisms, Complete, AtMostOneImage, BreaksSymmetry;
    var g := Complete(q.n + 1);
    UnrestrictedDivides(g, q);
    CompleteGraphDecides(q, r, q.n + 1);
    QuotientTest(|Matches(g, q, r)|, |Matches(g, q, [])|, |Automorphisms(q)|);
  }

  method RestrictedTestCount(q: Query, g: Graph, r: seq<Pair>) returns (ans: int)
    requires g.Valid() && q.Valid() && !q.induced && q.n >= 2 && Connected(q.adj) && InOrder(r, q.n)
    ensures ans == |Matches(g, q, r)|
  {
    hide Graph.Valid, Query.Valid, Connected, Schedule.Valid, InOrder, Matches;
    QueryIsSquare(q);
    var s := new Schedule(q.adj);
    s.AddRestrict(r);
    SameMatches(g, q, s.restrictPair, r);
    ans := Count(g, q, s);
  }

  lemma {:induction false} QueryIsSquare(q: Query)
    requires q.Valid()
    ensures |q.adj| == q.n && Square(q.adj, |q.adj|)
  {
  }

  /** The sets among all that break the symmetry, in order. */
  ghost function Breakers(q: Query, all: seq<seq<Pair>>): seq<seq<Pair>>
    requires q.Valid()
  {
    if |all| == 0 then
      []
    else
      Breakers(q, all[..|all| - 1]) + (if BreaksSymmetry(q, all[|all| - 1]) then [all[|all| - 1]] else [])
  }

  lemma {:induction false} BreakersAre(q: Query, all: seq<seq<Pair>>, r: seq<Pair>)
    requires q.Valid()
    ensures r in Breakers(q, all) <==> r in all && BreaksSymmetry(q, r)
  {
    hide BreaksSymmetry;
    if |all| > 0 {
      BreakersAre(q, all[..|all| - 1], r);
      assert all == all[..|all| - 1] + [all[|all| - 1]];
    }
  }

  /** The first `done` candidates have left i sets. */
  ghost predicate SiftedTo(q: Query, all: seq<seq<Pair>>, rs: seq<seq<Pair>>, done: nat, i: nat)
    requires q.Valid()
  {
    done <= |all| && i <= |rs| && rs[..i] == Breakers(q, all[..done]) && rs[i..] == all[done..]
  }

  lemma {:induction false} SiftEnds(q: Query, all: seq<seq<Pair>>, rs: seq<seq<Pair>>, done: nat, i: nat)
    requires q.Valid()
    ensures SiftedTo(q, all, all, 0, 0)
    ensures SiftedTo(q, all, rs, done, i) && i == |rs| ==> rs == Breakers(q, all)
  {
    if SiftedTo(q, all, rs, done, i) && i == |rs| {
      assert rs[..i] == rs && rs[i..] == [];
      assert all[..done] == all;
    }
  }

  lemma {:induction false} SiftStep(q: Query, all: seq<seq<Pair>>, rs: seq<seq<Pair>>, done: nat, i: nat)
    requires q.Valid() && SiftedTo(q, all, rs, done, i) && i < |rs|
    ensures rs[i] in all
    ensures BreaksSymmetry(q, rs[i]) ==> SiftedTo(q, all, rs, done + 1, i + 1)
    ensures !BreaksSymmetry(q, rs[i]) ==> SiftedTo(q, all, Erase(rs, i), done + 1, i)
  {
    hide BreaksSymmetry;
    assert rs[i] == rs[i..][0] == all[done];
    assert all[..done + 1][..done] == all[..done];
    assert all[done + 1..] == rs[i..][1..] == rs[i + 1..] == Erase(rs, i)[i..];
    assert Erase(rs, i)[..i] == rs[..i];
    assert rs[..i + 1] == rs[..i] + [rs[i]];
  }

  /** load_complete: every vertex lists all the others. */
  method CompleteGraph(m: nat) returns (g: Graph)
    ensures g == Complete(m) && g.Valid()
  {
    var adj: seq<seq<nat>> := [];
    for u := 0 to m
      invariant |adj| == u && forall w :: 0 <= w < u ==> adj[w] == Others(w, m)
    {
      var row: seq<nat> := [];
      for w := 0 to m
        invariant row == Others(u, w)
      {
        if w != u {
          row := row + [w];
        }
      }
      adj := adj + [row];
    }
    g := Graph(adj);
    CompleteIsValid(m);
  }

  /** The filter: keeps exactly the candidates that break the symmetry. */
  method SiftRestricts(q: Query, all: seq<seq<Pair>>) returns (restricts: seq<seq<Pair>>)
    requires q.Valid() && !q.induced && q.n >= 2 && Connected(q.adj)
    requires forall r :: r in all ==> InOrder(r, q.n) && AtMostOneImage(q, r)
    ensures restricts == Breakers(q, all)
  {
    hide Query.Valid, Connected, Matches, Automorphisms, AtMostOneImage, BreaksSymmetry, InOrder, SiftedTo, Breakers;
    restricts := all;
    NothingInOrder(q.n);
    var complete := CompleteGraph(q.n + 1);
    var total := RestrictedTestCount(q, complete, []);
    var isos := GetIsomorphismVec(q);
    DistinctSize(isos);
    UnrestrictedDivides(complete, q);
    var ans := total / |isos|;
    var i := 0;
    ghost var done := 0;
    SiftEnds(q, all, restricts, 0, 0);
    while i < |restricts|
      invariant 0 <= i <= |restricts|
      invariant SiftedTo(q, all, restricts, done, i)
      decreases |restricts| - i
    {
      SiftStep(q, all, restricts, done, i);
      var curAns := RestrictedTestCount(q, complete, restricts[i]);
      TestDecides(q, restricts[i]);
      done := done + 1;
      if curAns != ans {
        restricts := Erase(restricts, i);
      } else {
        i := i + 1;
      }
    }
    SiftEnds(q, all, restricts, done, i);
  }

  lemma {:induction false} NothingInOrder(n: nat)
    ensures InOrder([], n)
  {
  }

  /** The restriction sets of a pattern: those the search emits and that break the
      symmetry, in the order of the search. Each divides every count by the group order. */
  method RestrictsGenerate(q: Query) returns (restricts: seq<seq<Pair>>)
    requires q.Valid() && !q.induced && q.n >= 2 && Connected(q.adj)
    ensures restricts == Breakers(q, EmissionOf(q))
    ensures forall r :: r in restricts <==> Emitted(q, r) && BreaksSymmetry(q, r)
    ensures Clique(q) ==> restricts == [SinglePairs(AutList(q))]
    ensures forall g: Graph, r :: r in restricts ==>
      |Matches(g, q, r)| * |Automorphisms(q)| == |Matches(g, q, [])|
  {
    hide Connected, Matches, Automorphisms, BreaksSymmetry, EmissionOf, Emitted, Breakers, Clique;
    var all := AggressiveOptimizeGetAllPairs(q);
    restricts := SiftRestricts(q, all);
    forall r ensures r in restricts <==> Emitted(q, r) && BreaksSymmetry(q, r) {
      BreakersAre(q, all, r);
    }
    if Clique(q) {
      CliqueRestricts(q);
    }
    forall g: Graph, r | r in restricts
      ensures |Matches(g, q, r)| * |Automorphisms(q)| == |Matches(g, q, [])|
    {
      RestrictedCount(g, q, r);
    }
  }

  /** For a complete pattern the one emitted set is kept. */
  lemma {:induction false} CliqueRestricts(q: Query)
    requires q.Valid() && Clique(q)
    ensures Breakers(q, EmissionOf(q)) == [SinglePairs(AutList(q))]
  {
    hide BreaksSymmetry, AutList, SinglePairs, NotSingle, Clique, Survivors;
    CliqueEmits(q);
    OnlyIdentityLeft(q);
    var r := SinglePairs(AutList(q));
    assert EmissionOf(q) == [r];
    assert Breakers(q, []) == [];
  }
}
