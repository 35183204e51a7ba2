/** The minigraphs of a running program: which are built, and how a loop builds its own. */
module MgBuild {
  import opened Counting
  import opened Patterns
  import opened SortedLists
  import opened Completions
  import opened Ir
  import opened Plans
  import opened LoopCode
  import opened PlanCompiler
  import opened PlanCorrect
  import opened MgPlan
  import opened MgOrder
  import opened MgCollect
  import opened MiniGraphs
  import opened MgRuntime
  import opened ListRun

  datatype Kind = Eager | Lazy | Online | CostModel

  /** What the plan leaves to the runtime: the kind of minigraph, whether a minigraph's
      vertices and a set start at the same address, whether the cost model prunes an entry,
      and what memory holds behind a list. */
  datatype Policy = Policy(kind: Kind, shares: (MgIr, SetIr, seq<nat>) -> bool,
                           prunes: (MgIr, seq<nat>, nat) -> bool, beyond: (MgIr, seq<nat>) -> nat)

  /** `used` lists the minigraphs that the sets of loop d read. */
  ghost predicate UsedIn(p: PlanIr, mgs: seq<seq<MgIr>>, used: seq<MgIr>, d: nat)
    requires d < |p.ops| && d < |p.iter| && d < |mgs|
  {
    forall m :: m in used <==> exists t :: 0 <= t < |p.ops[d]| && Reads(p, mgs, m, d, t)
  }

  /** Loop e, which is followed by a loop that does not read m yet, maintains both sets of m. */
  ghost predicate Maintained(s: Setting, e: nat, m: MgIr)
    requires e < |s.p.ops|
  {
    e + 2 < s.loops && m.vertices in s.p.ops[e] && m.intersect in s.p.ops[e]
  }

  /** Whenever the rows it reads are good, the code computes its sets. */
  ghost predicate PiecesGood(s: Setting, mgs: seq<seq<MgIr>>, bounded: set<MgIr>, prog: Program, ans: Answers)
    requires s.Valid()
  {
    AnswersGood(s.(ans := ans), mgs, bounded) ==>
      AllPiecesRun(s.(ans := ans), prog) && LastLoopOk(s.(ans := ans), prog)
  }

  /** A pruned program, its minigraphs (those that each loop builds, those that its code
      reads), and the policy to run it with. */
  datatype Job = Job(s: Setting, mgs: seq<seq<MgIr>>, bounded: set<MgIr>, used: seq<seq<MgIr>>, prog: Program, policy: Policy) {
    ghost predicate Valid() {
      && s.Valid() && ProgramShape(s, prog)
      && MgsValid() && CodeValid()
    }

    ghost predicate MgsValid()
      requires s.Valid()
    {
      && GoodMgs(s.p, mgs) && Levelled(mgs) && BuildOrder(mgs, s.p.induced, bounded)
      && |s.p.ops| == |s.p.iter| < |mgs|
      && forall e, t :: 0 <= e < |s.p.ops| && 0 <= t < |mgs[e]| ==> Maintained(s, e, mgs[e][t])
    }

    ghost predicate CodeValid()
      requires s.Valid() && ProgramShape(s, prog) && MgsValid()
    {
      && |used| == s.loops
      && (forall d :: 0 <= d < s.loops ==> UsedIn(s.p, mgs, used[d], d) && BodyReads(prog.code[d], d + 1, Elements(used[d])))
      && (forall ans :: PiecesGood(s, mgs, bounded, prog, ans))
    }
  }

  // ----- the store grows -----

  ghost predicate StoreGrown(a: seq<Mini>, b: seq<Mini>) {
    |a| <= |b| && StoreLater(a, b[..|a|])
  }

  lemma {:induction false} GrownRefl(a: seq<Mini>)
    ensures StoreGrown(a, a)
  {
    assert a[..|a|] == a;
    StoreRefl(a);
  }

  lemma {:induction false} GrownAt(a: seq<Mini>, b: seq<Mini>, k: nat)
    requires StoreGrown(a, b) && k < |a|
    ensures Later(a[k], b[k])
  {
    assert b[..|a|][k] == b[k];
  }

  lemma {:induction false} GrownTrans(a: seq<Mini>, b: seq<Mini>, c: seq<Mini>)
    requires StoreGrown(a, b) && StoreGrown(b, c)
    ensures StoreGrown(a, c)
  {
    hide Later;
    forall k | 0 <= k < |a| ensures Later(a[k], c[..|a|][k]) {
      GrownAt(a, b, k);
      GrownAt(b, c, k);
      LaterTrans(a[k], b[k], c[k]);
    }
  }

  lemma {:induction false} AddedGrows(a: seq<Mini>, b: seq<Mini>, vertex: seq<nat>, inter: seq<nat>, bounded: bool,
                                      parent: Option<nat>)
    requires Added(a, b, vertex, inter, bounded, parent)
    ensures StoreGrown(a, b)
  {
  }

  // ----- ready minigraphs -----

  /** Minigraph m was built for f, and the rows of the loop right after it are pruned. */
  ghost predicate MgReady(s: Setting, bounded: set<MgIr>, m: MgIr, f: seq<nat>, minis: seq<Mini>, built: map<MgIr, nat>) {
    && m.Valid() && m.Depth() < |f| && m.Depth() < |s.p.iter|
    && s.p.iter[m.Depth()].Valid() && s.p.iter[m.Depth()].Depth() == m.Depth()
    && m in built && built[m] < |minis|
    && BuiltFor(s, m, m in bounded, f, minis[built[m]])
    && RowsHeld(minis[built[m]], Denotes(s.g, s.q.induced, s.p.iter[m.Depth()], f))
  }

  lemma {:induction false} ReadyGrows(s: Setting, bounded: set<MgIr>, m: MgIr, f: seq<nat>, h: seq<nat>,
                                      a: seq<Mini>, b: seq<Mini>, built: map<MgIr, nat>, built2: map<MgIr, nat>)
    requires MgReady(s, bounded, m, f, a, built) && f <= h && StoreGrown(a, b)
    requires m in built2 && built2[m] == built[m]
    ensures MgReady(s, bounded, m, h, b, built2)
  {
    hide Denotes, BuiltFor, Later, RowsHeld;
    GrownAt(a, b, built[m]);
    var iter := s.p.iter[m.Depth()];
    BuiltStays(s, m, m in bounded, f, h, a[built[m]], b[built[m]]);
    HeldStays(a[built[m]], b[built[m]], Denotes(s.g, s.q.induced, iter, f));
    DenotesKept(s.g, s.q.induced, iter, f, h);
  }

  /** All minigraphs of the loops before e, and the first t of loop e, are ready. */
  ghost predicate AllReady(j: Job, f: seq<nat>, minis: seq<Mini>, built: map<MgIr, nat>, e: nat, t: nat) {
    forall a, b :: 0 <= a < |j.mgs| && 0 <= b < |j.mgs[a]| && Done(a, b, e, t) ==>
      MgReady(j.s, j.bounded, j.mgs[a][b], f, minis, built)
  }

  lemma {:induction false} AllReadyGrows(j: Job, f: seq<nat>, h: seq<nat>, a: seq<Mini>, b: seq<Mini>,
                                         built: map<MgIr, nat>, e: nat, t: nat)
    requires AllReady(j, f, a, built, e, t) && f <= h && StoreGrown(a, b)
    ensures AllReady(j, h, b, built, e, t)
  {
    hide MgReady, StoreGrown;
    forall u, v | 0 <= u < |j.mgs| && 0 <= v < |j.mgs[u]| && Done(u, v, e, t)
      ensures MgReady(j.s, j.bounded, j.mgs[u][v], h, b, built)
    {
      BuiltOf(j.s, j.bounded, j.mgs[u][v], f, a, built);
      ReadyGrows(j.s, j.bounded, j.mgs[u][v], f, h, a, b, built, built);
    }
  }

  lemma {:induction false} BuiltOf(s: Setting, bounded: set<MgIr>, m: MgIr, f: seq<nat>, minis: seq<Mini>, built: map<MgIr, nat>)
    requires MgReady(s, bounded, m, f, minis, built)
    ensures m in built && built[m] < |minis|
  {
  }

  /** Building the next minigraph of a loop. */
  lemma {:induction false} AllReadyStep(j: Job, f: seq<nat>, a: seq<Mini>, b: seq<Mini>, built: map<MgIr, nat>, e: nat, t: nat)
    requires j.Valid() && e < |j.mgs| && t < |j.mgs[e]| && AllReady(j, f, a, built, e, t) && StoreGrown(a, b)
    requires MgReady(j.s, j.bounded, j.mgs[e][t], f, b, built[j.mgs[e][t] := |a|])
    ensures AllReady(j, f, b, built[j.mgs[e][t] := |a|], e, t + 1)
  {
    hide MgReady, StoreGrown, Setting.Valid, Job.CodeValid, ProgramShape, GoodMgs, BuildOrder, Maintained;
    var built2 := built[j.mgs[e][t] := |a|];
    forall u: nat, v: nat | u < |j.mgs| && v < |j.mgs[u]| && Done(u, v, e, t + 1)
      ensures MgReady(j.s, j.bounded, j.mgs[u][v], f, b, built2)
    {
      if u != e || v != t {
        if j.mgs[u][v] == j.mgs[e][t] {
          SamePlace(j.mgs, e, t, u, v);
        }
        BuiltOf(j.s, j.bounded, j.mgs[u][v], f, a, built);
        ReadyGrows(j.s, j.bounded, j.mgs[u][v], f, f, a, b, built, built2);
      }
    }
  }

  // ----- building one minigraph -----

  /** The two sets of m, in the lists of the loop that builds it. */
  lemma {:induction false} SetsListed(s: Setting, f: seq<nat>, env: ListEnv, sets: Env, e: nat, op: SetIr)
    requires s.Valid() && |f| == e + 1 && e < |s.p.ops| && op in s.p.ops[e]
    requires EnvLists(env, sets) && EnvGood(s, f, sets, e, |s.p.ops[e]|)
    ensures op.Valid() && op.Depth() < |f| && Lists(Stored(env, op), Denotes(s.g, s.q.induced, op, f))
  {
    hide Denotes, EnvGood, Setting.Valid, Lists;
    var u: nat :| u < |s.p.ops[e]| && s.p.ops[e][u] == op;
    EnvAt(s, f, sets, e, u);
    assert HoldsSet(env, sets, op);
  }

  lemma {:induction false} ListsInputs(s: Setting, m: MgIr, f: seq<nat>, vertex: seq<nat>, inter: seq<nat>)
    requires s.g.Valid() && m.Valid() && m.Depth() < |f|
    requires Lists(vertex, Denotes(s.g, s.q.induced, m.vertices, f)) && Lists(inter, Denotes(s.g, s.q.induced, m.intersect, f))
    ensures Inputs(s.g, vertex, inter)
  {
    hide MeetsAll;
    forall i | 0 <= i < |vertex| ensures vertex[i] < |s.g.adj| {
      assert vertex[i] in Elements(vertex);
    }
  }

  /** The parent that the plan chose is there, and fits. */
  lemma {:induction false} ParentFits(j: Job, f: seq<nat>, minis: seq<Mini>, built: map<MgIr, nat>, e: nat, t: nat, parent: MgIr,
                                      vertex: seq<nat>, inter: seq<nat>)
    requires j.Valid() && e < |j.mgs| && t < |j.mgs[e]| && |f| == e + 1 && AllReady(j, f, minis, built, e, t)
    requires j.mgs[e][t].Valid() && j.mgs[e][t].Depth() == e
    requires MgParent(j.mgs, j.mgs[e][t], j.s.p.induced, j.bounded) == Some(parent)
    requires Lists(vertex, Denotes(j.s.g, j.s.q.induced, j.mgs[e][t].vertices, f))
    requires Lists(inter, Denotes(j.s.g, j.s.q.induced, j.mgs[e][t].intersect, f))
    ensures parent in built && built[parent] < |minis|
    ensures BuildInputs(j.s.g, minis, vertex, inter, j.mgs[e][t] in j.bounded, Some(built[parent]))
  {
    hide MgReady, LastFeed, Denotes, ProgramShape, Job.CodeValid, GoodMgs, Levelled, Maintained, Compiled, MayFeed;
    var m := j.mgs[e][t];
    assert ParentReady(j.mgs, e, t, j.s.p.induced, j.bounded);
    ParentPlace(j, e, t, parent);
    var a, b := ParentAt(j, e, t, parent);
    assert MgReady(j.s, j.bounded, j.mgs[a][b], f, minis, built);
    ParentServes(j.s, j.bounded, parent, m, f, minis, built, vertex, inter);
  }

  lemma {:induction false} ParentPlace(j: Job, e: nat, t: nat, parent: MgIr)
    requires j.Valid() && e < |j.mgs| && t < |j.mgs[e]| && j.mgs[e][t].Valid() && j.mgs[e][t].Depth() == e
    requires MgParent(j.mgs, j.mgs[e][t], j.s.p.induced, j.bounded) == Some(parent)
    ensures MayFeed(parent, j.mgs[e][t], j.s.q.induced, j.bounded)
  {
    hide MayFeed, LastFeed, Job.CodeValid, ProgramShape;
    SettingSizes(j.s);
  }

  lemma {:induction false} ParentAt(j: Job, e: nat, t: nat, parent: MgIr) returns (a: nat, b: nat)
    requires e < |j.mgs| && t < |j.mgs[e]| && j.mgs[e][t].Valid() && j.mgs[e][t].Depth() == e
    requires MgParent(j.mgs, j.mgs[e][t], j.s.p.induced, j.bounded) == Some(parent)
    requires ParentReady(j.mgs, e, t, j.s.p.induced, j.bounded)
    ensures a < |j.mgs| && b < |j.mgs[a]| && Done(a, b, e, t) && j.mgs[a][b] == parent
    ensures parent.Valid() && parent.Depth() <= e
  {
    hide LastFeed;
    a := parent.Depth();
    if a < e {
      b :| 0 <= b < |j.mgs[a]| && j.mgs[a][b] == parent;
    } else {
      b :| 0 <= b < t && j.mgs[e][..t][b] == parent;
    }
  }

  lemma {:induction false} ParentServes(s: Setting, bounded: set<MgIr>, parent: MgIr, m: MgIr, f: seq<nat>, minis: seq<Mini>,
                                        built: map<MgIr, nat>, vertex: seq<nat>, inter: seq<nat>)
    requires s.g.Valid() && MgReady(s, bounded, parent, f, minis, built)
    requires m.Valid() && m.Depth() < |f| && MayFeed(parent, m, s.q.induced, bounded) && parent.Depth() <= m.Depth()
    requires Lists(vertex, Denotes(s.g, s.q.induced, m.vertices, f)) && Lists(inter, Denotes(s.g, s.q.induced, m.intersect, f))
    ensures parent in built && built[parent] < |minis|
    ensures BuildInputs(s.g, minis, vertex, inter, m in bounded, Some(built[parent]))
  {
    hide Denotes, RowsHeld, MayFeed;
    ListsInputs(s, m, f, vertex, inter);
    var child := Start(vertex, inter, m in bounded, None, []);
    FeedsAtRunTime(s, parent, m, bounded, f, minis[built[parent]], child);
  }

  /** mg_should_eager. */
  method ShouldEager(p: PlanIr, m: MgIr, e: nat) returns (eager: bool)
    requires e + 1 < |p.ops| && e < |p.iter|
    ensures eager <==> p.iter[e] == m.vertices && ServesNext(p, m, e)
  {
    if p.iter[e] != m.vertices {
      return false;
    }
    eager := CheckNext(p, m, e);
  }

  /** Which rows of a new minigraph are pruned, reserved and passed through. */
  ghost predicate BuiltAs(policy: Policy, eager: bool, m: MgIr, iterOp: SetIr, f: seq<nat>, mini: Mini, iter: seq<nat>) {
    && |mini.state| == |mini.vertex|
    && forall i :: 0 <= i < |mini.vertex| ==>
         EntryAs(policy, eager, m, iterOp, f, mini.state[i], mini.vertex[i], iter, iter <= mini.vertex, i)
  }

  ghost predicate EntryAs(policy: Policy, eager: bool, m: MgIr, iterOp: SetIr, f: seq<nat>, state: State, v: nat,
                          iter: seq<nat>, front: bool, i: nat) {
    match if eager then Eager else policy.kind
    case Eager => state.Held?
    case Lazy => if v in iter then state.Held? else state.NotPrune?
    case Online => if v in iter then state.Held? else state.WillPrune?
    case CostModel =>
      CostState(state, PrunedAtBuild(v, iter, policy.shares(m, iterOp, f) && front, policy.beyond(m, f)), policy.prunes(m, f, i))
  }

  /** The constructor and build call of one minigraph, in the variant the policy picks. */
  method BuildMini(policy: Policy, eager: bool, store: MiniGraphStore, m: MgIr, iterOp: SetIr, f: seq<nat>,
                   parentMg: Option<MgIr>, parent: Option<nat>, vertex: seq<nat>, inter: seq<nat>, iter: seq<nat>, bounded: bool)
    requires store.Valid() && BuildInputs(store.g, store.minis, vertex, inter, bounded, parent) && Sorted(iter)
    requires parentMg.Some? <==> parent.Some?
    modifies store
    ensures store.Valid() && Added(old(store.minis), store.minis, vertex, inter, bounded, parent)
    ensures BuiltAs(policy, eager, m, iterOp, f, store.minis[|old(store.minis)|], iter)
    ensures forall xs :: Lists(iter, xs) ==> RowsHeld(store.minis[|old(store.minis)|], xs)
  {
    hide StoreOk, Added, IterHeld, RowsHeld, Inputs, Graph.Valid, CostState, PrunedAtBuild;
    var sameParent := parent.Some? && policy.shares(m, parentMg.value.vertices, f) && vertex <= store.minis[parent.value].vertex;
    var sameIter := policy.shares(m, iterOp, f) && (iter <= vertex || vertex <= iter);
    var kind := if eager then Eager else policy.kind;
    match kind {
      case Eager =>
        store.BuildEager(parent, vertex, inter, bounded, sameParent);
        AddedAt(old(store.minis), store.minis, vertex, inter, bounded, parent);
        EagerIsHeld(store.minis[|old(store.minis)|]);
        forall xs ensures RowsHeld(store.minis[|old(store.minis)|], xs) {
          AllRowsHeld(store.minis[|old(store.minis)|], xs);
        }
      case Lazy => store.BuildLazy(parent, vertex, inter, iter, bounded, sameParent, sameIter);
      case Online => store.BuildOnline(parent, vertex, inter, iter, bounded, sameParent, sameIter);
      case CostModel =>
        store.BuildCostModel(parent, vertex, inter, iter, bounded, sameParent, sameIter && iter <= vertex,
                             seq(|vertex|, i requires 0 <= i < |vertex| => policy.prunes(m, f, i)), policy.beyond(m, f));
    }
    if kind != Eager {
      AddedAt(old(store.minis), store.minis, vertex, inter, bounded, parent);
      IterIsHeld(store.minis[|old(store.minis)|], iter);
      forall xs | Lists(iter, xs) ensures RowsHeld(store.minis[|old(store.minis)|], xs) {
        IterRowsHeld(store.minis[|old(store.minis)|], iter, xs);
      }
    }
  }

  lemma {:induction false} AddedAt(a: seq<Mini>, b: seq<Mini>, vertex: seq<nat>, inter: seq<nat>, bounded: bool,
                                   parent: Option<nat>)
    requires Added(a, b, vertex, inter, bounded, parent)
    ensures |b| == |a| + 1 && SameInputs(b[|a|], vertex, inter, bounded, parent)
  {
  }

  lemma {:induction false} EagerIsHeld(m: Mini)
    requires IterHeld(m, m.vertex)
    ensures |m.state| == |m.vertex| && forall i :: 0 <= i < |m.vertex| ==> m.state[i].Held?
  {
  }

  lemma {:induction false} IterIsHeld(m: Mini, iter: seq<nat>)
    requires IterHeld(m, iter)
    ensures |m.state| == |m.vertex| && forall i :: 0 <= i < |m.vertex| && m.vertex[i] in iter ==> m.state[i].Held?
  {
  }

  /** What the loop needs to build its t-th minigraph. */
  lemma {:induction false} BuildFacts(j: Job, e: nat, t: nat)
    requires j.Valid() && e < |j.s.p.ops| && t < |j.mgs[e]|
    ensures j.mgs[e][t].Valid() && j.mgs[e][t].Depth() == e && e + 2 < j.s.loops
    ensures j.s.loops <= |j.s.p.ops| == |j.s.p.iter| < |j.mgs|
    ensures j.mgs[e][t].vertices in j.s.p.ops[e] && j.mgs[e][t].intersect in j.s.p.ops[e] && j.s.p.iter[e] in j.s.p.ops[e]
    ensures j.s.p.iter[e].Valid() && j.s.p.iter[e].Depth() == e
  {
    hide Job.CodeValid, GoodMgs, BuildOrder;
    SettingSizes(j.s);
    assert Maintained(j.s, e, j.mgs[e][t]);
    IterIsListed(j.s.p, j.s.q, j.s.res, e);
  }

  lemma {:induction false} NewIsReady(s: Setting, bounded: set<MgIr>, m: MgIr, f: seq<nat>, a: seq<Mini>,
                                      b: seq<Mini>, built: map<MgIr, nat>, vertex: seq<nat>, inter: seq<nat>,
                                      parent: Option<nat>)
    requires m.Valid() && m.Depth() < |f| && m.Depth() < |s.p.iter|
    requires s.p.iter[m.Depth()].Valid() && s.p.iter[m.Depth()].Depth() == m.Depth()
    requires Lists(vertex, Denotes(s.g, s.q.induced, m.vertices, f)) && Lists(inter, Denotes(s.g, s.q.induced, m.intersect, f))
    requires Added(a, b, vertex, inter, m in bounded, parent)
    requires RowsHeld(b[|a|], Denotes(s.g, s.q.induced, s.p.iter[m.Depth()], f))
    ensures MgReady(s, bounded, m, f, b, built[m := |a|])
  {
    hide Denotes, RowsHeld, StoreLater;
  }

  /** The minigraph that stands for entry t of the loop's list: its parent is the last one
      that feeds it, and its rows are set up as the policy says. */
  ghost predicate NewMini(j: Job, f: seq<nat>, built: map<MgIr, nat>, env: ListEnv, t: nat, mini: Mini)
    requires 0 < |f| <= |j.mgs| && |f| <= |j.s.p.iter| && |f| < |j.s.p.ops| && t < |j.mgs[|f| - 1]|
  {
    var e, m := |f| - 1, j.mgs[|f| - 1][t];
    && m.Valid() && m.Depth() == e
    && mini.vertex == Stored(env, m.vertices) && mini.inter == Stored(env, m.intersect) && mini.bounded == (m in j.bounded)
    && (match MgParent(j.mgs, m, j.s.p.induced, j.bounded)
        case None => mini.parent == None
        case Some(p) => p in built && mini.parent == Some(built[p]))
    && BuiltAs(j.policy, j.s.p.iter[e] == m.vertices && ServesNext(j.s.p, m, e), m, j.s.p.iter[e], f, mini,
               Stored(env, j.s.p.iter[e]))
  }

  /** gen_code_mg_init and gen_code_mg_build for the t-th minigraph of loop e. */
  method BuildOne(j: Job, store: MiniGraphStore, built: map<MgIr, nat>, env: ListEnv, f: seq<nat>, t: nat, ghost sets: Env)
    returns (built2: map<MgIr, nat>)
    requires j.Valid() && store.Valid() && store.g == j.s.g && 0 < |f| <= |j.s.p.ops| && t < |j.mgs[|f| - 1]|
    requires EnvLists(env, sets) && EnvGood(j.s, f, sets, |f| - 1, |j.s.p.ops[|f| - 1]|)
    requires AllReady(j, f, store.minis, built, |f| - 1, t)
    modifies store
    ensures store.Valid() && StoreGrown(old(store.minis), store.minis)
    ensures AllReady(j, f, store.minis, built2, |f| - 1, t + 1)
    ensures |store.minis| == |old(store.minis)| + 1 && built2 == built[j.mgs[|f| - 1][t] := |old(store.minis)|]
    ensures NewMini(j, f, built, env, t, store.minis[|old(store.minis)|])
  {
    hide Setting.Valid, Job.CodeValid, Job.MgsValid, ProgramShape, EnvLists, EnvGood, AllReady, Lists, Denotes, StoreOk, MgReady,
      BuildInputs, Added, StoreGrown, RowsHeld, Graph.Valid, Stored, ServesNext, LastFeed, MayFeed, BuiltAs;
    var e := |f| - 1;
    BuildFacts(j, e, t);
    var m, iterOp := j.mgs[e][t], j.s.p.iter[e];
    SetsListed(j.s, f, env, sets, e, m.vertices);
    SetsListed(j.s, f, env, sets, e, m.intersect);
    SetsListed(j.s, f, env, sets, e, iterOp);
    var vertex, inter, iter := Stored(env, m.vertices), Stored(env, m.intersect), Stored(env, iterOp);
    var eager := ShouldEager(j.s.p, m, e);
    var parentMg := GetMgParent(j.mgs, m, j.s.p.induced, j.bounded);
    var parent: Option<nat> := None;
    InputsAt(j.s, m, f, vertex, inter, store.minis, m in j.bounded);
    if parentMg.Some? {
      ParentFits(j, f, store.minis, built, e, t, parentMg.value, vertex, inter);
      parent := Some(built[parentMg.value]);
    }
    ghost var before := store.minis;
    ListedElements(iter, Denotes(j.s.g, j.s.q.induced, iterOp, f));
    BuildMini(j.policy, eager, store, m, iterOp, f, parentMg, parent, vertex, inter, iter, m in j.bounded);
    AddedGrows(before, store.minis, vertex, inter, m in j.bounded, parent);
    AddedAt(before, store.minis, vertex, inter, m in j.bounded, parent);
    NewIsReady(j.s, j.bounded, m, f, before, store.minis, built, vertex, inter, parent);
    AllReadyStep(j, f, before, store.minis, built, e, t);
    built2 := built[m := |store.minis| - 1];
  }

  lemma {:induction false} InputsAt(s: Setting, m: MgIr, f: seq<nat>, vertex: seq<nat>, inter: seq<nat>,
                                    minis: seq<Mini>, bounded: bool)
    requires s.Valid() && m.Valid() && m.Depth() < |f|
    requires Lists(vertex, Denotes(s.g, s.q.induced, m.vertices, f)) && Lists(inter, Denotes(s.g, s.q.induced, m.intersect, f))
    ensures BuildInputs(s.g, minis, vertex, inter, bounded, None)
  {
    hide Denotes, Inputs, Lists;
    ListsInputs(s, m, f, vertex, inter);
  }

  /** All the minigraphs of one loop, in order. */
  method BuildLevel(j: Job, store: MiniGraphStore, built0: map<MgIr, nat>, env: ListEnv, f: seq<nat>, ghost sets: Env)
    returns (built: map<MgIr, nat>)
    requires j.Valid() && store.Valid() && store.g == j.s.g && 0 < |f| <= |j.s.p.ops| < |j.mgs|
    requires EnvLists(env, sets) && EnvGood(j.s, f, sets, |f| - 1, |j.s.p.ops[|f| - 1]|)
    requires AllReady(j, f, store.minis, built0, |f| - 1, 0)
    modifies store
    ensures store.Valid() && StoreGrown(old(store.minis), store.minis)
    ensures AllReady(j, f, store.minis, built, |f|, 0)
  {
    hide Job.Valid, EnvLists, EnvGood, MgReady, StoreOk, StoreGrown, Graph.Valid;
    built := built0;
    ghost var before := store.minis;
    GrownRefl(before);
    for t := 0 to |j.mgs[|f| - 1]|
      invariant store.Valid() && StoreGrown(before, store.minis)
      invariant AllReady(j, f, store.minis, built, |f| - 1, t)
    {
      ghost var mid := store.minis;
      built := BuildOne(j, store, built, env, f, t, sets);
      GrownTrans(before, mid, store.minis);
    }
    LevelDone(j, f, store.minis, built, |f| - 1);
  }

  lemma {:induction false} LevelDone(j: Job, f: seq<nat>, minis: seq<Mini>, built: map<MgIr, nat>, e: nat)
    requires e < |j.mgs| && AllReady(j, f, minis, built, e, |j.mgs[e]|)
    ensures AllReady(j, f, minis, built, e + 1, 0)
  {
    hide MgReady;
    forall a, b | 0 <= a < |j.mgs| && 0 <= b < |j.mgs[a]| && Done(a, b, e + 1, 0)
      ensures MgReady(j.s, j.bounded, j.mgs[a][b], f, minis, built)
    {
      assert Done(a, b, e, |j.mgs[e]|);
    }
  }
}
