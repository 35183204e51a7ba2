/** Running a pruned program: row reads, set operations, builds and index lookups. */
module PrunedRun {
  import opened Counting
  import opened Patterns
  import opened SortedLists
  import opened Completions
  import opened Ir
  import opened Plans
  import opened LoopCode
  import opened PlanCompiler
  import opened PlanCorrect
  import opened MgPlan
  import opened MgOrder
  import opened MgCollect
  import opened Positions
  import opened MiniGraphs
  import opened MgRuntime
  import opened ListRun
  import opened MgBuild
  import opened Matcher
  import opened Interpreter

  // ----- answers along a run -----

  /** A row that is good whatever the other rows are. */
  ghost predicate RowGood(s: Setting, bounded: set<MgIr>, m: MgIr, f: seq<nat>, row: seq<nat>) {
    && Sorted(row) && m.Valid() && m.Depth() + 1 < |f|
    && forall ans: Answers :: ans(m, f) == Elements(row) ==> AnswerGood(s.(ans := ans), m in bounded, m, f)
  }

  /** The rows that were read for f; for everything else the pruned rows. */
  ghost function Patched(s: Setting, f: seq<nat>, rows: RowLists): Answers {
    (m: MgIr, h: seq<nat>) => if h == f && m in rows then Elements(rows[m]) else IdealRow(s, m, h)
  }

  ghost function IdealRow(s: Setting, m: MgIr, h: seq<nat>): set<nat> {
    if m.Valid() && m.Depth() < |h| then
      Denotes(s.g, s.q.induced, m.intersect, h) * Neighbours(s.g, h[|h| - 1])
    else
      {}
  }

  lemma {:induction false} IdealAnswer(s: Setting, bounded: bool, m: MgIr, h: seq<nat>)
    requires m.Valid() && m.Depth() + 1 < |h| && s.ans(m, h) == IdealRow(s, m, h)
    ensures AnswerGood(s, bounded, m, h)
  {
    hide Denotes;
  }

  lemma {:induction false} PatchedGood(s: Setting, mgs: seq<seq<MgIr>>, bounded: set<MgIr>, f: seq<nat>, rows: RowLists)
    requires s.Valid() && forall m :: m in rows ==> RowGood(s, bounded, m, f, rows[m])
    ensures AnswersGood(s.(ans := Patched(s, f, rows)), mgs, bounded)
    ensures RowsListed(rows, Patched(s, f, rows), f)
  {
    hide AnswerGood, IdealRow, Partial, Compiled, Denotes;
    var ans := Patched(s, f, rows);
    var t := s.(ans := ans);
    forall m: MgIr, h: seq<nat> | Listed(mgs, m) && Asked(t, m, h) ensures AnswerGood(t, m in bounded, m, h) {
      if h == f && m in rows {
        assert RowGood(s, bounded, m, f, rows[m]);
      } else {
        IdealSame(s, ans, m, h);
        IdealAnswer(t, m in bounded, m, h);
      }
    }
    forall m | m in rows ensures Lists(rows[m], ans(m, f)) {
      assert RowGood(s, bounded, m, f, rows[m]);
    }
  }

  lemma {:induction false} IdealSame(s: Setting, ans: Answers, m: MgIr, h: seq<nat>)
    ensures IdealRow(s.(ans := ans), m, h) == IdealRow(s, m, h)
  {
  }

  /** What a match is does not depend on the answers. */
  lemma {:induction false} OtherAns(s: Setting, ans: Answers)
    requires s.Valid()
    ensures s.(ans := ans).Valid() && s.(ans := ans).C() == s.C()
  {
  }

  lemma {:induction false} OtherEnv(s: Setting, ans: Answers, f: seq<nat>, env: Env, d: nat, t: nat)
    requires s.Valid() && d < |f|
    ensures s.(ans := ans).Valid() && (EnvGood(s.(ans := ans), f, env, d, t) <==> EnvGood(s, f, env, d, t))
  {
    hide Denotes, Setting.Valid;
    OtherAns(s, ans);
    var r := s.(ans := ans);
    forall e, u | 0 <= e < |s.p.ops| && 0 <= u < |s.p.ops[e]|
      ensures InEnv(r, f, env, e, u) <==> InEnv(s, f, env, e, u)
    {
    }
  }

  // ----- used minigraphs -----

  lemma {:induction false} UsedFacts(j: Job, d: nat, m: MgIr)
    requires j.Valid() && d < j.s.loops && m in j.used[d]
    ensures 0 < d < |j.s.p.ops| == |j.s.p.iter| && Listed(j.mgs, m) && m.Depth() < d
    ensures j.s.p.iter[d - 1].Valid() && j.s.p.iter[d - 1].Depth() == d - 1
    ensures SupersetOf(m.vertices, j.s.p.iter[d - 1], j.s.q.induced)
  {
    hide SupersetOf, BuildOrder, Maintained, Levelled, PiecesGood, BodyReads, ParentMg;
    SettingSizes(j.s);
    assert UsedIn(j.s.p, j.mgs, j.used[d], d);
    var t :| 0 <= t < |j.s.p.ops[d]| && Reads(j.s.p, j.mgs, m, d, t);
    UsedMg(j.s, j.mgs, d, t);
    IterIsListed(j.s.p, j.s.q, j.s.res, d - 1);
  }

  lemma {:induction false} UsedReady(j: Job, f: seq<nat>, minis: seq<Mini>, built: map<MgIr, nat>, d: nat, m: MgIr)
    requires j.Valid() && d < j.s.loops && m in j.used[d] && AllReady(j, f, minis, built, d, 0)
    ensures MgReady(j.s, j.bounded, m, f, minis, built)
  {
    hide Job.Valid, MgReady;
    UsedFacts(j, d, m);
    var b: nat :| b < |j.mgs[m.Depth()]| && j.mgs[m.Depth()][b] == m;
    assert Done(m.Depth(), b, d, 0);
  }

  // ----- positions -----

  /** Looked-up positions; a minigraph without an entry is read at the loop index itself. */
  type Marks = map<MgIr, seq<nat>>

  function PositionOf(marks: Marks, m: MgIr, i: nat): nat {
    if m in marks then if i < |marks[m]| then marks[m][i] else 0 else i
  }

  /** The i-th vertex of the list `xs` is found there. */
  ghost predicate Located(vertex: seq<nat>, xs: seq<nat>, marks: Marks, m: MgIr) {
    forall i :: 0 <= i < |xs| ==> FoundAt(vertex, PositionOf(marks, m, i), xs[i])
  }

  ghost predicate FoundAt(vertex: seq<nat>, at: nat, x: nat) {
    at < |vertex| && vertex[at] == x
  }

  ghost predicate MgLocated(m: MgIr, minis: seq<Mini>, built: map<MgIr, nat>, marks: Marks, xs: seq<nat>) {
    m in built && built[m] < |minis| && Located(minis[built[m]].vertex, xs, marks, m)
  }

  ghost predicate AllLocated(ms: seq<MgIr>, minis: seq<Mini>, built: map<MgIr, nat>, marks: Marks, xs: seq<nat>) {
    forall u :: 0 <= u < |ms| ==> MgLocated(ms[u], minis, built, marks, xs)
  }

  /** For loop index i the newest vertex is x. */
  ghost predicate MgFound(m: MgIr, minis: seq<Mini>, built: map<MgIr, nat>, marks: Marks, i: nat, x: nat) {
    m in built && built[m] < |minis| && FoundAt(minis[built[m]].vertex, PositionOf(marks, m, i), x)
  }

  ghost predicate AllMgFound(ms: seq<MgIr>, minis: seq<Mini>, built: map<MgIr, nat>, marks: Marks, i: nat, x: nat) {
    forall u :: 0 <= u < |ms| ==> MgFound(ms[u], minis, built, marks, i, x)
  }

  lemma {:induction false} LocatedGrows(ms: seq<MgIr>, a: seq<Mini>, b: seq<Mini>, built: map<MgIr, nat>,
                                        marks: Marks, xs: seq<nat>)
    requires AllLocated(ms, a, built, marks, xs) && StoreGrown(a, b)
    ensures AllLocated(ms, b, built, marks, xs)
  {
    forall u | 0 <= u < |ms| ensures MgLocated(ms[u], b, built, marks, xs) {
      assert MgLocated(ms[u], a, built, marks, xs);
      GrownAt(a, b, built[ms[u]]);
    }
  }

  lemma {:induction false} FoundGrows(ms: seq<MgIr>, a: seq<Mini>, b: seq<Mini>, built: map<MgIr, nat>, marks: Marks,
                                      i: nat, x: nat)
    requires AllMgFound(ms, a, built, marks, i, x) && StoreGrown(a, b)
    ensures AllMgFound(ms, b, built, marks, i, x)
  {
    forall u | 0 <= u < |ms| ensures MgFound(ms[u], b, built, marks, i, x) {
      assert MgFound(ms[u], a, built, marks, i, x);
      GrownAt(a, b, built[ms[u]]);
    }
  }

  lemma {:induction false} LocatedFound(ms: seq<MgIr>, minis: seq<Mini>, built: map<MgIr, nat>, marks: Marks,
                                        xs: seq<nat>, i: nat)
    requires AllLocated(ms, minis, built, marks, xs) && i < |xs|
    ensures AllMgFound(ms, minis, built, marks, i, xs[i])
  {
    forall u | 0 <= u < |ms| ensures MgFound(ms[u], minis, built, marks, i, xs[i]) {
      assert MgLocated(ms[u], minis, built, marks, xs);
    }
  }

  /** The iterated vertices are among the vertices of every minigraph the next loop reads. */
  lemma {:induction false} IterAmong(s: Setting, bounded: set<MgIr>, m: MgIr, f: seq<nat>, minis: seq<Mini>,
                                     built: map<MgIr, nat>, iter: SetIr, xs: seq<nat>)
    requires s.g.Valid() && MgReady(s, bounded, m, f, minis, built) && iter.Valid() && iter.Depth() < |f|
    requires SupersetOf(m.vertices, iter, s.q.induced) && Lists(xs, Denotes(s.g, s.q.induced, iter, f))
    ensures m in built && built[m] < |minis|
    ensures var v := minis[built[m]].vertex;
      Sorted(v) && Sorted(xs) && Elements(xs) <= Elements(v) && (SkipsIndices(iter, m.vertices) ==> xs <= v)
  {
    hide Denotes, SupersetOf, SkipsIndices, RowsHeld;
    SupersetDenotes(s.g, s.q.induced, m.vertices, iter, f);
    if SkipsIndices(iter, m.vertices) {
      SkipMeansPrefix(s.g, s.q.induced, iter, m.vertices, f, xs, minis[built[m]].vertex);
    }
  }

  ghost predicate OnlyMarked(a: Marks, b: Marks, m: MgIr) {
    forall k :: k != m ==> (k in a <==> k in b) && (k in a ==> a[k] == b[k])
  }

  /** gen_code_mg_indice: the positions of the vertices of one list. */
  method IndexOne(policy: Policy, marks0: Marks, m: MgIr, iter: SetIr, f: seq<nat>, vertex: seq<nat>, xs: seq<nat>)
    returns (marks: Marks)
    requires iter.Valid() && m.vertices.Valid() && Sorted(vertex) && Sorted(xs) && Elements(xs) <= Elements(vertex)
    requires SkipsIndices(iter, m.vertices) ==> xs <= vertex && m !in marks0
    ensures Located(vertex, xs, marks, m)
    ensures OnlyMarked(marks0, marks, m) && (SkipsIndices(iter, m.vertices) ==> marks == marks0)
  {
    marks := marks0;
    if !SkipsIndices(iter, m.vertices) {
      var out := GetIndices(vertex, xs, policy.shares(m, iter, f) && (xs <= vertex || vertex <= xs));
      LocatesEach(out, vertex, xs);
      marks := marks[m := out];
    }
  }

  method IndexUsed(j: Job, store: MiniGraphStore, built: map<MgIr, nat>, f: seq<nat>, xs: seq<nat>) returns (marks: Marks)
    requires j.Valid() && 0 < |f| < j.s.loops && |j.used| == j.s.loops <= |j.s.p.iter|
    requires AllReady(j, f, store.minis, built, |f|, 0)
    requires j.s.p.iter[|f| - 1].Valid() && j.s.p.iter[|f| - 1].Depth() < |f|
    requires Lists(xs, Denotes(j.s.g, j.s.q.induced, j.s.p.iter[|f| - 1], f))
    ensures AllLocated(j.used[|f|], store.minis, built, marks, xs)
  {
    hide Job.Valid, Denotes, AllReady, Lists, SupersetOf, MgReady, SkipsIndices, Located;
    var ms, iter := j.used[|f|], j.s.p.iter[|f| - 1];
    marks := map[];
    for u := 0 to |ms|
      invariant AllLocated(ms[..u], store.minis, built, marks, xs)
      invariant forall m :: m in marks ==> m.vertices.Valid() && !SkipsIndices(iter, m.vertices)
    {
      var m := ms[u];
      UsedFacts(j, |f|, m);
      UsedReady(j, f, store.minis, built, |f|, m);
      GraphOk(j);
      IterAmong(j.s, j.bounded, m, f, store.minis, built, iter, xs);
      ghost var before := marks;
      marks := IndexOne(j.policy, marks, m, iter, f, store.minis[built[m]].vertex, xs);
      LocatedMore(ms, u, store.minis, built, before, marks, xs);
    }
    assert ms[..|ms|] == ms;
  }

  lemma {:induction false} GraphOk(j: Job)
    requires j.Valid()
    ensures j.s.g.Valid()
  {
  }

  lemma {:induction false} LocatedMore(ms: seq<MgIr>, u: nat, minis: seq<Mini>, built: map<MgIr, nat>, a: Marks,
                                       b: Marks, xs: seq<nat>)
    requires u < |ms| && AllLocated(ms[..u], minis, built, a, xs) && MgLocated(ms[u], minis, built, b, xs)
    requires OnlyMarked(a, b, ms[u])
    ensures AllLocated(ms[..u + 1], minis, built, b, xs)
  {
    hide Located;
    var longer := ms[..u + 1];
    forall v | 0 <= v < |longer| ensures MgLocated(longer[v], minis, built, b, xs) {
      if v < u {
        assert ms[..u][v] == longer[v] && MgLocated(ms[..u][v], minis, built, a, xs);
        if ms[v] != ms[u] {
          SameMarks(minis[built[ms[v]]].vertex, xs, a, b, ms[v]);
        }
      }
    }
  }

  lemma {:induction false} SameMarks(vertex: seq<nat>, xs: seq<nat>, a: Marks, b: Marks, m: MgIr)
    requires Located(vertex, xs, a, m) && (m in a <==> m in b) && (m in a ==> a[m] == b[m])
    ensures Located(vertex, xs, b, m)
  {
    forall i | 0 <= i < |xs| ensures FoundAt(vertex, PositionOf(b, m, i), xs[i]) {
      assert FoundAt(vertex, PositionOf(a, m, i), xs[i]);
    }
  }

  // ----- row reads -----

  /** The iterated set of the building loop contains the vertex chosen right after it. */
  lemma {:induction false} FirstRowHeld(j: Job, f: seq<nat>, m: MgIr)
    requires j.Valid() && 1 < |f| <= j.s.loops && Partial(j.s.C(), f)
    requires m.Valid() && m.Depth() + 2 == |f| && m.Depth() < |j.s.p.iter|
    requires j.s.p.iter[m.Depth()].Valid() && j.s.p.iter[m.Depth()].Depth() == m.Depth()
    ensures f[|f| - 1] in Denotes(j.s.g, j.s.q.induced, j.s.p.iter[m.Depth()], f)
  {
    hide Partial, Denotes, Job.MgsValid, Job.CodeValid, ProgramShape;
    ChosenInIter(j.s, f);
  }

  /** gen_code_mg_adj for one minigraph. */
  method ReadRow(j: Job, store: MiniGraphStore, built: map<MgIr, nat>, marks: Marks, f: seq<nat>, i: nat, m: MgIr)
    returns (row: seq<nat>)
    requires j.Valid() && store.Valid() && store.g == j.s.g && 1 < |f| <= j.s.loops && Partial(j.s.C(), f)
    requires m.Valid() && m.Depth() + 1 < |f| && MgReady(j.s, j.bounded, m, f, store.minis, built)
    requires MgFound(m, store.minis, built, marks, i, f[|f| - 1])
    modifies store
    ensures store.Valid() && StoreGrown(old(store.minis), store.minis)
    ensures RowGood(j.s, j.bounded, m, f, row)
  {
    hide Job.Valid, Partial, Denotes, BuiltFor, RowsHeld, StoreOk, AnswerGood, StoreLater, Graph.Valid;
    ghost var before := store.minis;
    if m.Depth() + 2 == |f| {
      FirstRowHeld(j, f, m);
    }
    row := Answer(j.s, store, m, m in j.bounded, f, built[m], PositionOf(marks, m, i),
                  Denotes(j.s.g, j.s.q.induced, j.s.p.iter[m.Depth()], f));
    LaterGrown(before, store.minis);
  }

  lemma {:induction false} LaterGrown(a: seq<Mini>, b: seq<Mini>)
    requires StoreLater(a, b)
    ensures StoreGrown(a, b)
  {
    assert b[..|a|] == b;
  }

  /** The rows that the sets of this loop read. */
  method ReadRows(j: Job, store: MiniGraphStore, built: map<MgIr, nat>, marks: Marks, f: seq<nat>, i: nat)
    returns (rows: RowLists)
    requires j.Valid() && store.Valid() && store.g == j.s.g
    requires 0 < |f| <= j.s.loops && |j.used| == j.s.loops && Partial(j.s.C(), f)
    requires AllReady(j, f, store.minis, built, |f| - 1, 0)
    requires AllMgFound(j.used[|f| - 1], store.minis, built, marks, i, f[|f| - 1])
    modifies store
    ensures store.Valid() && StoreGrown(old(store.minis), store.minis)
    ensures rows.Keys == Elements(j.used[|f| - 1])
    ensures forall m :: m in rows ==> RowGood(j.s, j.bounded, m, f, rows[m])
  {
    hide Job.Valid, Partial, AllReady, AllMgFound, MgReady, MgFound, RowGood, StoreOk, StoreGrown, Graph.Valid;
    var ms := j.used[|f| - 1];
    ghost var before := store.minis;
    rows := map[];
    GrownRefl(before);
    for u := 0 to |ms|
      invariant store.Valid() && StoreGrown(before, store.minis)
      invariant AllReady(j, f, store.minis, built, |f| - 1, 0)
      invariant AllMgFound(ms, store.minis, built, marks, i, f[|f| - 1])
      invariant rows.Keys == Elements(ms[..u])
      invariant forall m :: m in rows ==> RowGood(j.s, j.bounded, m, f, rows[m])
    {
      ghost var mid := store.minis;
      UsedFacts(j, |f| - 1, ms[u]);
      UsedReady(j, f, store.minis, built, |f| - 1, ms[u]);
      FoundOne(ms, store.minis, built, marks, i, f[|f| - 1], u);
      var row := ReadRow(j, store, built, marks, f, i, ms[u]);
      rows := rows[ms[u] := row];
      assert ms[..u + 1] == ms[..u] + [ms[u]];
      GrownTrans(before, mid, store.minis);
      AllReadyGrows(j, f, f, mid, store.minis, built, |f| - 1, 0);
      FoundGrows(ms, mid, store.minis, built, marks, i, f[|f| - 1]);
    }
    assert ms[..|ms|] == ms;
  }

  lemma {:induction false} FoundOne(ms: seq<MgIr>, minis: seq<Mini>, built: map<MgIr, nat>, marks: Marks, i: nat, x: nat, u: nat)
    requires AllMgFound(ms, minis, built, marks, i, x) && u < |ms|
    ensures MgFound(ms[u], minis, built, marks, i, x)
  {
  }

  // ----- loop bodies -----

  /** The body before the last loop: sets are in place, or nothing extends f. */
  ghost predicate BodyDone(s: Setting, f: seq<nat>, out: ListOutcome)
    requires s.Valid() && 0 < |f| <= |s.p.ops|
  {
    match out
    case Stopped(n) => n == 0 && Extending(s.C(), f) == {}
    case Continued(env, n) => n == 0 && exists sets: Env :: EnvLists(env, sets) && EnvGood(s, f, sets, |f| - 1, |s.p.ops[|f| - 1]|)
  }

  /** Code that reads good rows does what the plan says. */
  lemma {:induction false} CodeRuns(j: Job, f: seq<nat>, rows: RowLists, env: ListEnv, sets: Env, out: ListOutcome)
    requires j.Valid() && 0 < |f| <= j.s.loops <= |j.s.p.ops| && Partial(j.s.C(), f) && EnvGood(j.s, f, sets, |f| - 1, 0)
    requires forall m :: m in rows ==> RowGood(j.s, j.bounded, m, f, rows[m])
    requires |j.prog.code| == j.s.loops && BodyFits(j.prog.code[|f| - 1], |f|)
    requires SameOutcome(out, ExecBody(j.s.g, Patched(j.s, f, rows), f, j.prog.code[|f| - 1], |j.prog.code[|f| - 1]|, sets))
    ensures if |f| == j.s.loops then out.total == |Extending(j.s.C(), f)| else BodyDone(j.s, f, out)
  {
    hide Setting.Valid, Partial, EnvGood, EnvLists, Extending, ExecBody, BodyFits, AllPiecesRun, AnswersGood,
      Job.MgsValid, Patched, RowGood;
    var ans, d := Patched(j.s, f, rows), |f| - 1;
    var t := j.s.(ans := ans);
    OtherAns(j.s, ans);
    OtherEnv(j.s, ans, f, sets, d, 0);
    PatchedGood(j.s, j.mgs, j.bounded, f, rows);
    assert PiecesGood(j.s, j.mgs, j.bounded, j.prog, ans);
    SettingSizes(j.s);
    if |f| == j.s.loops {
      assert LastOkAt(t, j.prog, f, sets);
    } else {
      BodyRuns(t, j.prog, f, sets, d, |j.s.p.ops[d]|);
      var r := ExecBody(j.s.g, ans, f, j.prog.code[d], |j.prog.code[d]|, sets);
      if r.Go? {
        OtherEnv(j.s, ans, f, r.env, d, |j.s.p.ops[d]|);
      }
    }
  }

  lemma {:induction false} BodySizes(j: Job, f: seq<nat>)
    requires j.Valid() && 0 < |f| <= j.s.loops
    ensures |f| <= |j.prog.code| == j.s.loops <= |j.s.p.ops| == |j.s.p.iter| < |j.mgs| && |j.used| == j.s.loops
    ensures BodyFits(j.prog.code[|f| - 1], |f|) && BodyReads(j.prog.code[|f| - 1], |f|, Elements(j.used[|f| - 1]))
    ensures j.s.Valid() && j.s.g.Valid()
  {
    hide BodyFits, BodyReads, GoodMgs, Levelled, BuildOrder, Maintained, PiecesGood, UsedIn;
    SettingSizes(j.s);
  }

  lemma {:induction false} ChosenInGraph(j: Job, f: seq<nat>)
    requires j.Valid() && Partial(j.s.C(), f)
    ensures ListRun.InGraph(j.s.g, f)
  {
    hide Partial, Job.MgsValid, Job.CodeValid, ProgramShape;
    PartialIsInjective(j.s.C(), f);
  }

  /** One loop body on lists. */
  method RunBodyOnce(j: Job, store: MiniGraphStore, built: map<MgIr, nat>, env: ListEnv, marks: Marks, f: seq<nat>,
                     i: nat, ghost sets: Env)
    returns (out: ListOutcome)
    requires j.Valid() && store.Valid() && store.g == j.s.g
    requires 0 < |f| <= j.s.loops <= |j.s.p.ops| && |j.used| == j.s.loops && Partial(j.s.C(), f)
    requires EnvLists(env, sets) && EnvGood(j.s, f, sets, |f| - 1, 0)
    requires AllReady(j, f, store.minis, built, |f| - 1, 0)
    requires AllMgFound(j.used[|f| - 1], store.minis, built, marks, i, f[|f| - 1])
    modifies store
    ensures store.Valid() && StoreGrown(old(store.minis), store.minis)
    ensures if |f| == j.s.loops then out.total == |Extending(j.s.C(), f)| else BodyDone(j.s, f, out)
  {
    hide Job.Valid, Partial, AllReady, AllMgFound, RowGood, StoreOk, StoreGrown, EnvLists, EnvGood, Graph.Valid,
      Patched, BodyFits, BodyReads,
      BodyDone, SameOutcome, RowsListed, Extending, ListRun.InGraph, AnswersGood, Setting.Valid;
    BodySizes(j, f);
    ChosenInGraph(j, f);
    var rows := ReadRows(j, store, built, marks, f, i);
    PatchedGood(j.s, j.mgs, j.bounded, f, rows);
    ghost var ans := Patched(j.s, f, rows);
    out := RunBody(j.s.g, rows, env, f, j.prog.code[|f| - 1], ans, sets);
    CodeRuns(j, f, rows, env, sets, out);
  }

  // ----- whole runs -----

  /** The next loop runs over exactly the vertices that may come next. */
  lemma {:induction false} NextListed(j: Job, f: seq<nat>, env: ListEnv, sets: Env)
    requires j.Valid() && 0 < |f| < j.s.loops <= |j.s.p.ops| && Partial(j.s.C(), f)
    requires EnvLists(env, sets) && EnvGood(j.s, f, sets, |f| - 1, |j.s.p.ops[|f| - 1]|)
    ensures |f| <= |j.s.p.iter| && j.s.p.iter[|f| - 1].Valid() && j.s.p.iter[|f| - 1].Depth() < |f| < j.s.C().q.n == j.s.q.n
    ensures var iter := j.s.p.iter[|f| - 1]; var xs := Stored(env, iter);
      && Lists(xs, Denotes(j.s.g, j.s.q.induced, iter, f)) && Sorted(xs)
      && (forall x: nat :: Next(j.s.C(), f, x) <==> x in Elements(xs))
      && (forall i :: 0 <= i < |xs| ==> Next(j.s.C(), f, xs[i]))
  {
    hide Partial, Denotes, Job.MgsValid, Job.CodeValid, ProgramShape, EnvGood, EnvLists, Next, Compiled;
    var e := |f| - 1;
    SettingSizes(j.s);
    IterIsListed(j.s.p, j.s.q, j.s.res, e);
    SetsListed(j.s, f, env, sets, e, j.s.p.iter[e]);
    IterInEnv(j.s, f, sets);
    assert EnvLists(env, sets);
    StoredIs(env, sets, j.s.p.iter[e]);
    var xs := Stored(env, j.s.p.iter[e]);
    forall i | 0 <= i < |xs| ensures Next(j.s.C(), f, xs[i]) {
      assert xs[i] in Elements(xs);
    }
  }

  lemma {:induction false} StoredIs(env: ListEnv, sets: Env, op: SetIr)
    requires EnvLists(env, sets)
    ensures Elements(Stored(env, op)) == Get(sets, op)
  {
    assert HoldsSet(env, sets, op);
  }

  /** What one more iteration needs. */
  lemma {:induction false} EntersIteration(j: Job, f: seq<nat>, env: ListEnv, sets: Env, xs: seq<nat>, i: nat)
    requires j.Valid() && 0 < |f| < j.s.loops <= |j.s.p.ops| && Partial(j.s.C(), f)
    requires EnvGood(j.s, f, sets, |f| - 1, |j.s.p.ops[|f| - 1]|) && i < |xs| && |f| < j.s.q.n && Next(j.s.C(), f, xs[i])
    ensures Partial(j.s.C(), f + [xs[i]]) && EnvGood(j.s, f + [xs[i]], sets, |f|, 0)
  {
    hide Partial, Job.MgsValid, Job.CodeValid, ProgramShape, EnvGood, Next, Setting.Valid;
    PartialGrows(j.s.C(), f, xs[i]);
    EnvPasses(j.s, f, sets);
  }

  /** One iteration of loop |f| - 1, for the loop index i: read the pruned rows, run the
      body, build minigraphs, look up positions, run the next loop. */
  method RunIteration(j: Job, store: MiniGraphStore, built: map<MgIr, nat>, env: ListEnv, marks: Marks, f: seq<nat>,
                      i: nat, ghost sets: Env)
    returns (total: int)
    requires j.Valid() && store.Valid() && store.g == j.s.g
    requires 0 < |f| <= j.s.loops <= |j.s.p.ops| && |j.used| == j.s.loops && Partial(j.s.C(), f)
    requires EnvLists(env, sets) && EnvGood(j.s, f, sets, |f| - 1, 0)
    requires AllReady(j, f, store.minis, built, |f| - 1, 0)
    requires AllMgFound(j.used[|f| - 1], store.minis, built, marks, i, f[|f| - 1])
    modifies store
    ensures store.Valid() && StoreGrown(old(store.minis), store.minis)
    ensures total == |Extending(j.s.C(), f)|
    decreases j.s.loops - |f|, 1
  {
    hide Job.Valid, Partial, AllReady, AllMgFound, StoreOk, StoreGrown, EnvLists, EnvGood, Graph.Valid, Extending, Setting.Valid;
    ghost var before := store.minis;
    var out := RunBodyOnce(j, store, built, env, marks, f, i, sets);
    total := out.total;
    BodySizes(j, f);
    if |f| < j.s.loops && out.Continued? {
      ghost var sets2: Env :| EnvLists(out.env, sets2) && EnvGood(j.s, f, sets2, |f| - 1, |j.s.p.ops[|f| - 1]|);
      ghost var mid := store.minis;
      AllReadyGrows(j, f, f, before, mid, built, |f| - 1, 0);
      total := RunNextLoop(j, store, built, out.env, f, sets2);
      GrownTrans(before, mid, store.minis);
    }
  }

  /** The builds and lookups of loop |f| - 1, and the loop behind them. */
  method RunNextLoop(j: Job, store: MiniGraphStore, built0: map<MgIr, nat>, env: ListEnv, f: seq<nat>, ghost sets: Env)
    returns (total: int)
    requires j.Valid() && store.Valid() && store.g == j.s.g
    requires 0 < |f| < j.s.loops <= |j.s.p.ops| && |j.used| == j.s.loops && Partial(j.s.C(), f)
    requires EnvLists(env, sets) && EnvGood(j.s, f, sets, |f| - 1, |j.s.p.ops[|f| - 1]|)
    requires AllReady(j, f, store.minis, built0, |f| - 1, 0)
    modifies store
    ensures store.Valid() && StoreGrown(old(store.minis), store.minis)
    ensures total == |Extending(j.s.C(), f)|
    decreases j.s.loops - |f|, 0
  {
    hide *;
    ghost var before := store.minis;
    BodySizes(j, f);
    var built := BuildLevel(j, store, built0, env, f, sets);
    NextListed(j, f, env, sets);
    var xs := Stored(env, j.s.p.iter[|f| - 1]);
    var marks := IndexUsed(j, store, built, f, xs);
    total := 0;
    ThroughNothing(j.s.C(), f, xs);
    for i := 0 to |xs|
      invariant total == |Through(j.s.C(), f, Elements(xs[..i]))|
      invariant store.Valid() && StoreGrown(before, store.minis)
      invariant AllReady(j, f, store.minis, built, |f|, 0)
      invariant AllLocated(j.used[|f|], store.minis, built, marks, xs)
    {
      ghost var mid := store.minis;
      var h := f + [xs[i]];
      EntersIteration(j, f, env, sets, xs, i);
      GrownRefl(mid);
      AllReadyGrows(j, f, h, mid, mid, built, |f|, 0);
      LocatedFound(j.used[|f|], mid, built, marks, xs, i);
      var n := RunIteration(j, store, built, env, marks, h, i, sets);
      total := total + n;
      ThroughStep(j.s.C(), f, xs, i);
      GrownTrans(before, mid, store.minis);
      AllReadyGrows(j, f, f, mid, store.minis, built, |f|, 0);
      LocatedGrows(j.used[|f|], mid, store.minis, built, marks, xs);
    }
    assert xs[..|xs|] == xs;
    ThroughAll(j.s.C(), f, Elements(xs));
  }

  lemma {:induction false} Starts(j: Job, x: nat, env: ListEnv, sets: Env)
    requires j.Valid() && x < |j.s.g.adj| && env == map[] && sets == map[]
    ensures 0 < j.s.loops <= |j.s.p.ops| && |j.used| == j.s.loops && j.s.Valid() && Partial(j.s.C(), [x]) && j.used[0] == []
    ensures EnvLists(env, sets) && EnvGood(j.s, [x], sets, 0, 0)
    ensures forall minis :: AllReady(j, [x], minis, map[], 0, 0)
  {
    hide Compiled, Job.MgsValid, BodyReads, PiecesGood, ParentMg;
    SettingSizes(j.s);
    FirstVertex(j.s.C(), x);
    PartialGrows(j.s.C(), [], x);
    assert [] + [x] == [x];
    if |j.used[0]| > 0 {
      UsedFacts(j, 0, j.used[0][0]);
    }
    forall op ensures HoldsSet(env, sets, op) {
    }
  }

  /** The pruned program on a graph, whatever the policy: the loop over all vertices. */
  method RunPruned(j: Job) returns (total: int)
    requires j.Valid()
    ensures j.s.Valid() && total == |All(j.s.C())|
  {
    hide Job.Valid, Partial, AllReady, StoreOk, StoreGrown, EnvLists, EnvGood, Graph.Valid, Extending, Setting.Valid,
      Through, All;
    JobValid(j);
    var store := new MiniGraphStore(j.s.g);
    total := 0;
    NothingBelow(j.s.C());
    for x := 0 to |j.s.g.adj|
      invariant store.Valid() && fresh(store) && store.g == j.s.g
      invariant total == |Through(j.s.C(), [], Below(x))|
    {
      Starts(j, x, map[], map[]);
      var n := RunIteration(j, store, map[], map[], map[], [x], x, map[]);
      total := total + n;
      OneMoreBelow(j.s.C(), x);
    }
    EverythingBelow(j.s.C());
  }

  lemma {:induction false} JobValid(j: Job)
    requires j.Valid()
    ensures j.s.Valid() && j.s.g.Valid() && j.s.q.n > 0
  {
    hide Job.MgsValid, Job.CodeValid, ProgramShape;
    SettingSizes(j.s);
  }
}
