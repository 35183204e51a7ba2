/** create_plan_mg: choosing the minigraphs, flagging the bounded ones, dropping the unused. */
module MgCollect {
  import opened Counting
  import opened Ir
  import opened Plans
  import opened PlanCorrect
  import opened MgPlan

  /** The plan's shape, as far as collecting needs it. */
  ghost predicate Shaped(p: PlanIr) {
    && p.n >= 3 && |p.ops| == |p.iter| == p.n - 1 && GoodOps(p.ops)
    && (forall d :: 0 <= d < |p.iter| ==> p.iter[d].Valid() && p.iter[d].Depth() == d && p.iter[d] in p.ops[d])
  }

  lemma {:induction false} CompiledIsShaped(s: Setting)
    requires s.Valid()
    ensures Shaped(s.p)
  {
    hide Ones;
    SettingSizes(s);
    CompiledIsGood(s.p, s.q, s.res);
    forall d | 0 <= d < |s.p.iter| ensures s.p.iter[d].Valid() && s.p.iter[d].Depth() == d && s.p.iter[d] in s.p.ops[d] {
      IterIsListed(s.p, s.q, s.res, d);
    }
  }

  lemma {:induction false} SetAt(p: PlanIr, d: nat, t: nat)
    requires Shaped(p) && d < |p.ops| && t < |p.ops[d]|
    ensures p.ops[d][t].Valid() && p.ops[d][t].Depth() == d && p.ops[d][t] in p.ops[d]
    ensures forall e: nat :: e < d && CutTo(p.ops[d][t], e).Some? ==> p.ops[d][t].UpTo(e) in p.ops[e]
  {
    assert GoodLevel(p.ops, d);
  }

  // ----- which minigraphs are wanted -----

  ghost predicate ServesNext(p: PlanIr, m: MgIr, e: nat)
    requires e + 1 < |p.ops| && e < |p.iter|
  {
    ComputesOne(m, p.iter[e], p.ops[e + 1], p.induced)
  }

  /** m's rows are, after the next vertex is chosen, one of the sets in `ops`. */
  ghost predicate ComputesOne(m: MgIr, iter: SetIr, ops: seq<SetIr>, induced: bool) {
    exists u :: 0 <= u < |ops| && Computed(m, iter, ops[u], induced)
  }

  /** Set t of loop comp wants minigraph m built in loop e: the cuts to loop e of the
      set itself and of the set that loop comp iterates over. */
  ghost predicate WantedBy(p: PlanIr, isStatic: bool, e: nat, m: MgIr, comp: nat, t: nat)
    requires Shaped(p) && comp < |p.ops| && t < |p.ops[comp]|
  {
    && e + 2 <= comp
    && p.ops[comp][t].Valid() && p.ops[comp][t].Depth() == comp
    && (p.induced || p.ops[comp][t].edges[comp])
    && CutTo(p.ops[comp][t], e) == Some(m.intersect)
    && CutTo(p.iter[comp - 1], e) == Some(m.vertices)
    && (isStatic ==> ServesNext(p, m, e))
  }

  ghost predicate WantedAt(p: PlanIr, isStatic: bool, e: nat, m: MgIr, comp: nat, k: nat)
    requires Shaped(p) && comp < |p.ops| && k <= |p.ops[comp]|
  {
    exists t :: 0 <= t < k && WantedBy(p, isStatic, e, m, comp, t)
  }

  /** Wanted by some loop from `from` on, among the first `loops`. */
  ghost predicate WantedFrom(p: PlanIr, isStatic: bool, loops: nat, e: nat, m: MgIr, from: nat)
    requires Shaped(p) && loops <= |p.ops|
  {
    exists comp :: from <= comp < loops && WantedAt(p, isStatic, e, m, comp, |p.ops[comp]|)
  }

  method CheckNext(p: PlanIr, m: MgIr, e: nat) returns (found: bool)
    requires e + 1 < |p.ops| && e < |p.iter|
    ensures found <==> ServesNext(p, m, e)
  {
    var ops := p.ops[e + 1];
    for u := 0 to |ops|
      invariant forall w :: 0 <= w < u ==> !Computed(m, p.iter[e], ops[w], p.induced)
    {
      if Computed(m, p.iter[e], ops[u], p.induced) {
        return true;
      }
    }
    return false;
  }

  /** The minigraphs of one set, appended to the lists of the loops that build them. */
  method AddSet(p: PlanIr, isStatic: bool, mgs0: seq<seq<MgIr>>, comp: nat, t: nat) returns (mgs: seq<seq<MgIr>>)
    requires Shaped(p) && |mgs0| == p.n && 2 <= comp < |p.ops| && t < |p.ops[comp]|
    ensures |mgs| == p.n
    ensures forall e, m :: 0 <= e < p.n ==> (m in mgs[e] <==> m in mgs0[e] || WantedBy(p, isStatic, e, m, comp, t))
  {
    hide ServesNext, GoodOps;
    mgs := mgs0;
    SetAt(p, comp, t);
    var vset, iter := p.ops[comp][t], p.iter[comp - 1];
    if !p.induced && !vset.edges[comp] {
      return;
    }
    ghost var v :| 0 <= v < |p.ops[comp - 1]| && p.ops[comp - 1][v] == iter;
    SetAt(p, comp - 1, v);
    for e := 0 to comp - 1
      invariant |mgs| == p.n
      invariant forall a, m :: 0 <= a < p.n ==>
        (m in mgs[a] <==> m in mgs0[a] || (a < e && WantedBy(p, isStatic, a, m, comp, t)))
    {
      var intersect := GetParentAt(p.ops, vset, e, p.induced);
      var vertices := GetParentAt(p.ops, iter, e, p.induced);
      if intersect.Some? && vertices.Some? {
        var m := MgIr(vertices.value, intersect.value);
        var serves := CheckNext(p, m, e);
        if !isStatic || serves {
          mgs := mgs[e := mgs[e] + [m]];
        }
      }
    }
  }

  method AddLevel(p: PlanIr, isStatic: bool, mgs0: seq<seq<MgIr>>, comp: nat) returns (mgs: seq<seq<MgIr>>)
    requires Shaped(p) && |mgs0| == p.n && 2 <= comp < |p.ops|
    ensures |mgs| == p.n
    ensures forall e, m :: 0 <= e < p.n ==>
      (m in mgs[e] <==> m in mgs0[e] || WantedAt(p, isStatic, e, m, comp, |p.ops[comp]|))
  {
    hide Shaped, WantedBy;
    mgs := mgs0;
    for t := 0 to |p.ops[comp]|
      invariant |mgs| == p.n
      invariant forall e, m :: 0 <= e < p.n ==> (m in mgs[e] <==> m in mgs0[e] || WantedAt(p, isStatic, e, m, comp, t))
    {
      mgs := AddSet(p, isStatic, mgs, comp, t);
    }
  }

  method Collect(p: PlanIr, isStatic: bool, loops: nat) returns (mgs: seq<seq<MgIr>>)
    requires Shaped(p) && 0 < loops <= |p.ops|
    ensures |mgs| == p.n
    ensures forall e, m :: 0 <= e < p.n ==> (m in mgs[e] <==> WantedFrom(p, isStatic, loops, e, m, 2))
  {
    hide WantedAt, GoodOps;
    mgs := seq(p.n, _ => []);
    var comp := loops - 1;
    while comp >= 2
      invariant 0 <= comp < loops && (loops >= 2 ==> comp >= 1) && |mgs| == p.n
      invariant forall e, m :: 0 <= e < p.n ==> (m in mgs[e] <==> WantedFrom(p, isStatic, loops, e, m, comp + 1))
    {
      mgs := AddLevel(p, isStatic, mgs, comp);
      forall e, m | 0 <= e < p.n
        ensures WantedFrom(p, isStatic, loops, e, m, comp)
          <==> WantedFrom(p, isStatic, loops, e, m, comp + 1) || WantedAt(p, isStatic, e, m, comp, |p.ops[comp]|)
      {
        WantedStep(p, isStatic, loops, e, m, comp);
      }
      comp := comp - 1;
    }
  }

  lemma {:induction false} WantedStep(p: PlanIr, isStatic: bool, loops: nat, e: nat, m: MgIr, comp: nat)
    requires Shaped(p) && comp < loops <= |p.ops|
    ensures WantedFrom(p, isStatic, loops, e, m, comp)
      <==> WantedFrom(p, isStatic, loops, e, m, comp + 1) || WantedAt(p, isStatic, e, m, comp, |p.ops[comp]|)
  {
    hide WantedAt, Shaped;
  }

  method Unique(raw: seq<MgIr>) returns (ms: seq<MgIr>)
    ensures Distinct(ms) && forall m :: m in ms <==> m in raw
  {
    ms := [];
    for t := 0 to |raw|
      invariant Distinct(ms) && forall m :: m in ms <==> m in raw[..t]
    {
      assert raw[..t + 1] == raw[..t] + [raw[t]];
      if raw[t] !in ms {
        ms := ms + [raw[t]];
      }
    }
    assert raw[..|raw|] == raw;
  }

  /** Exactly the wanted minigraphs, once each. */
  ghost predicate Collected(p: PlanIr, isStatic: bool, loops: nat, mgs: seq<seq<MgIr>>)
    requires Shaped(p) && loops <= |p.ops|
  {
    && |mgs| == p.n
    && (forall e :: 0 <= e < p.n ==> Distinct(mgs[e]))
    && (forall e, m :: 0 <= e < p.n ==> (m in mgs[e] <==> WantedFrom(p, isStatic, loops, e, m, 2)))
  }

  method CollectUnique(p: PlanIr, isStatic: bool, loops: nat) returns (mgs: seq<seq<MgIr>>)
    requires Shaped(p) && 0 < loops <= |p.ops|
    ensures Collected(p, isStatic, loops, mgs)
  {
    hide WantedFrom, GoodOps;
    var raw := Collect(p, isStatic, loops);
    mgs := [];
    for e := 0 to p.n
      invariant |mgs| == e
      invariant forall a :: 0 <= a < e ==> Distinct(mgs[a])
      invariant forall a, m :: 0 <= a < e ==> (m in mgs[a] <==> m in raw[a])
    {
      var ms := Unique(raw[e]);
      mgs := mgs + [ms];
    }
  }

  /** Wanted minigraphs are built early enough and intersect with something. */
  lemma {:induction false} CollectedIsGood(p: PlanIr, isStatic: bool, loops: nat, mgs: seq<seq<MgIr>>)
    requires Shaped(p) && loops <= |p.ops| && Collected(p, isStatic, loops, mgs)
    ensures GoodMgs(p, mgs)
  {
    hide Ones, Computed, GoodOps;
    forall e, t | 0 <= e < |mgs| && 0 <= t < |mgs[e]|
      ensures mgs[e][t].Valid() && mgs[e][t].Depth() == e && e + 4 <= p.n && Ones(mgs[e][t].intersect.edges) > 0
    {
      assert mgs[e][t] in mgs[e];
      WantedIsGood(p, isStatic, loops, e, mgs[e][t]);
    }
  }

  lemma {:induction false} WantedIsGood(p: PlanIr, isStatic: bool, loops: nat, e: nat, m: MgIr)
    requires Shaped(p) && loops <= |p.ops| && WantedFrom(p, isStatic, loops, e, m, 2)
    ensures m.Valid() && m.Depth() == e && e + 4 <= p.n && Ones(m.intersect.edges) > 0
  {
    hide Ones, ServesNext;
    var comp :| 2 <= comp < loops && WantedAt(p, isStatic, e, m, comp, |p.ops[comp]|);
    var t :| 0 <= t < |p.ops[comp]| && WantedBy(p, isStatic, e, m, comp, t);
  }

  // ----- bounded flags -----

  /** Set t of loop d reads minigraph m. */
  ghost predicate Reads(p: PlanIr, mgs: seq<seq<MgIr>>, m: MgIr, d: nat, t: nat)
    requires d < |p.ops| && t < |p.ops[d]| && d < |p.iter| && d < |mgs|
  {
    && p.ops[d][t].Valid() && p.ops[d][t].Depth() == d
    && ParentMg(p, mgs, p.ops[d][t]) == Some(m)
  }

  ghost predicate FlagOk(p: PlanIr, mgs: seq<seq<MgIr>>, m: MgIr, d: nat, k: nat)
    requires d < |p.ops| && k <= |p.ops[d]| && d < |p.iter| && d < |mgs|
  {
    forall t :: 0 <= t < k && Reads(p, mgs, m, d, t) ==> p.ops[d][t].Restricted()
  }

  /** A minigraph is bounded exactly when all sets that read it are. */
  ghost predicate Flagged(p: PlanIr, mgs: seq<seq<MgIr>>, bounded: set<MgIr>, all: set<MgIr>, done: nat)
    requires done <= |p.ops| == |p.iter| < |mgs|
  {
    forall m :: m in bounded <==> m in all && forall d :: 0 <= d < done ==> FlagOk(p, mgs, m, d, |p.ops[d]|)
  }

  function Members(mgs: seq<seq<MgIr>>): (s: set<MgIr>) {
    set e, t | 0 <= e < |mgs| && 0 <= t < |mgs[e]| :: mgs[e][t]
  }

  method FlagBounded(p: PlanIr, mgs: seq<seq<MgIr>>, loops: nat) returns (bounded: set<MgIr>)
    requires Shaped(p) && |mgs| == p.n && loops <= |p.ops|
    ensures Flagged(p, mgs, bounded, Members(mgs), loops)
  {
    hide FlagOk, GoodOps, ParentMg;
    bounded := Members(mgs);
    for d := 0 to loops
      invariant Flagged(p, mgs, bounded, Members(mgs), d)
    {
      bounded := FlagLevel(p, mgs, bounded, d);
    }
  }

  method FlagLevel(p: PlanIr, mgs: seq<seq<MgIr>>, bounded0: set<MgIr>, d: nat) returns (bounded: set<MgIr>)
    requires Shaped(p) && |mgs| == p.n && d < |p.ops|
    ensures forall m :: m in bounded <==> m in bounded0 && FlagOk(p, mgs, m, d, |p.ops[d]|)
  {
    hide GoodOps, ParentMg;
    bounded := bounded0;
    for t := 0 to |p.ops[d]|
      invariant forall m :: m in bounded <==> m in bounded0 && FlagOk(p, mgs, m, d, t)
    {
      var op := p.ops[d][t];
      SetAt(p, d, t);
      var mg := GetParentMg(p, mgs, op);
      if mg.Some? && !op.Restricted() {
        bounded := bounded - {mg.value};
      }
    }
  }

  lemma {:induction false} FlaggedIsSafe(p: PlanIr, mgs: seq<seq<MgIr>>, bounded: set<MgIr>, loops: nat)
    requires Shaped(p) && |mgs| == p.n && loops <= |p.ops| && Flagged(p, mgs, bounded, Members(mgs), loops)
    ensures BoundedSafe(p, mgs, bounded, loops)
  {
    hide GoodOps, ParentMg;
    forall d, t | 0 <= d < loops && 0 <= t < |p.ops[d]| ensures UserSafe(p, mgs, bounded, d, p.ops[d][t]) {
      SetAt(p, d, t);
      var mg := ParentMg(p, mgs, p.ops[d][t]);
      if mg.Some? && mg.value in bounded {
        assert FlagOk(p, mgs, mg.value, d, |p.ops[d]|);
        assert Reads(p, mgs, mg.value, d, t);
      }
    }
  }
}
