/** create_plan_mg: marking the minigraphs that are kept. Readers mark what they read; then
    each marked minigraph, when its turn comes, marks its parent. */
module MgMark {
  import opened Ir
  import opened Plans
  import opened MgPlan
  import opened MgCollect
  import opened MgOrder

  // ----- what is needed -----

  /** Some set of the first `loops` loops reads m. */
  ghost predicate ReadBy(p: PlanIr, mgs: seq<seq<MgIr>>, m: MgIr, loops: nat)
    requires loops <= |p.ops| == |p.iter| < |mgs|
  {
    exists d, t :: 0 <= d < loops && 0 <= t < |p.ops[d]| && Reads(p, mgs, m, d, t)
  }

  /** m is the parent of the listed minigraph c. */
  ghost predicate ChildOf(mgs: seq<seq<MgIr>>, induced: bool, bounded: set<MgIr>, c: MgIr, m: MgIr) {
    Listed(mgs, c) && MgParent(mgs, c, induced, bounded) == Some(m)
  }

  /** m's need is known when its turn comes: a set reads it, or a child from a later loop
      was itself in time. */
  ghost predicate InTime(p: PlanIr, mgs: seq<seq<MgIr>>, bounded: set<MgIr>, loops: nat, m: MgIr)
    requires loops <= |p.ops| == |p.iter| < |mgs|
    decreases if m.Valid() && m.Depth() < |mgs| then |mgs| - m.Depth() else 0
  {
    && Listed(mgs, m)
    && (ReadBy(p, mgs, m, loops)
        || exists c: MgIr :: ChildOf(mgs, p.induced, bounded, c, m) && c.Depth() > m.Depth() && InTime(p, mgs, bounded, loops, c))
  }

  /** A set reads m, or m is the parent of a minigraph whose need was known in time. */
  ghost predicate Needed(p: PlanIr, mgs: seq<seq<MgIr>>, bounded: set<MgIr>, loops: nat, m: MgIr)
    requires loops <= |p.ops| == |p.iter| < |mgs|
  {
    || ReadBy(p, mgs, m, loops)
    || exists c :: ChildOf(mgs, p.induced, bounded, c, m) && InTime(p, mgs, bounded, loops, c)
  }

  // ----- the two passes -----

  ghost predicate Turned(mgs: seq<seq<MgIr>>, c: MgIr, e: nat, t: nat) {
    Listed(mgs, c) && (c.Depth() > e || (c.Depth() == e && t <= |mgs[e]| && c in mgs[e][..t]))
  }

  /** The marks once the loops behind e and the first t entries of loop e had their turn. */
  ghost predicate Marked(p: PlanIr, mgs: seq<seq<MgIr>>, bounded: set<MgIr>, loops: nat, used: set<MgIr>, e: nat, t: nat)
    requires loops <= |p.ops| == |p.iter| < |mgs|
  {
    forall m :: m in used <==>
      || ReadBy(p, mgs, m, loops)
      || exists c :: ChildOf(mgs, p.induced, bounded, c, m) && InTime(p, mgs, bounded, loops, c) && Turned(mgs, c, e, t)
  }

  lemma {:induction false} ReadIsListed(p: PlanIr, mgs: seq<seq<MgIr>>, m: MgIr, d: nat, t: nat)
    returns (e: nat, u: nat)
    requires Levelled(mgs) && d < |p.ops| == |p.iter| < |mgs| && t < |p.ops[d]| && Reads(p, mgs, m, d, t)
    ensures Listed(mgs, m) && e < d && u < |mgs[e]| && mgs[e][u] == m
  {
    hide Covers, LastCover;
    var op := p.ops[d][t];
    e, u := LastCoverIs(mgs, p.iter[d - 1], op, p.induced, d, 0);
    assert mgs[e][u].Depth() == e;
  }

  lemma {:induction false} ParentIsListed(mgs: seq<seq<MgIr>>, induced: bool, bounded: set<MgIr>, c: MgIr, m: MgIr)
    returns (e: nat, u: nat)
    requires Levelled(mgs) && ChildOf(mgs, induced, bounded, c, m)
    ensures Listed(mgs, m) && m.Depth() == e <= c.Depth() && u < |mgs[e]| && mgs[e][u] == m
  {
    hide LastFeed, MayFeed;
    e, u := FeedListed(mgs, c, induced, bounded, c.Depth() + 1, 0);
    assert mgs[e][u].Depth() == e;
  }

  /** Nothing that is read, and no parent, is fed by a later minigraph of its loop. */
  lemma {:induction false} MarkedUnshadowed(p: PlanIr, mgs: seq<seq<MgIr>>, bounded: set<MgIr>, loops: nat,
                                            used: set<MgIr>, e: nat, t: nat)
    requires Levelled(mgs) && loops <= |p.ops| == |p.iter| < |mgs| && Marked(p, mgs, bounded, loops, used, e, t)
    ensures NoneShadowed(mgs, used, p.induced, bounded)
  {
    hide Shadowed, Marked, InTime, Turned, ParentMg, MgParent, Levelled;
    forall a, b | 0 <= a < |mgs| && 0 <= b < |mgs[a]| && mgs[a][b] in used ensures !Shadowed(mgs, a, b, p.induced, bounded) {
      MarkedWhy(p, mgs, bounded, loops, used, e, t, mgs[a][b]);
      if ReadBy(p, mgs, mgs[a][b], loops) {
        var d, u :| 0 <= d < loops && 0 <= u < |p.ops[d]| && Reads(p, mgs, mgs[a][b], d, u);
        var x, y := ReadIsListed(p, mgs, mgs[a][b], d, u);
        SamePlace(mgs, x, y, a, b);
        ReadIsUnshadowed(p, mgs, bounded, p.ops[d][u], a, b);
      } else {
        var c :| ChildOf(mgs, p.induced, bounded, c, mgs[a][b]);
        var x, y := ParentIsListed(mgs, p.induced, bounded, c, mgs[a][b]);
        SamePlace(mgs, x, y, a, b);
        ParentIsUnshadowed(mgs, c, p.induced, bounded, a, b);
      }
    }
  }

  lemma {:induction false} MarkedWhy(p: PlanIr, mgs: seq<seq<MgIr>>, bounded: set<MgIr>, loops: nat,
                                     used: set<MgIr>, e: nat, t: nat, m: MgIr)
    requires loops <= |p.ops| == |p.iter| < |mgs| && Marked(p, mgs, bounded, loops, used, e, t) && m in used
    ensures ReadBy(p, mgs, m, loops) || exists c :: ChildOf(mgs, p.induced, bounded, c, m)
  {
    hide ReadBy, ChildOf, InTime, Turned;
  }

  /** When a minigraph's turn comes it is marked exactly if its need is known in time. */
  lemma {:induction false} MarkedInTime(p: PlanIr, mgs: seq<seq<MgIr>>, bounded: set<MgIr>, loops: nat,
                                        used: set<MgIr>, e: nat, t: nat)
    requires Levelled(mgs) && loops <= |p.ops| == |p.iter| < |mgs| && Marked(p, mgs, bounded, loops, used, e, t)
    requires e < |mgs| && t < |mgs[e]|
    ensures mgs[e][t] in used <==> InTime(p, mgs, bounded, loops, mgs[e][t])
  {
    hide ReadBy, MgParent, Shadowed, MayFeed;
    var m := mgs[e][t];
    assert m.Valid() && m.Depth() == e && m in mgs[e];
    if c: MgIr :| ChildOf(mgs, p.induced, bounded, c, m) && InTime(p, mgs, bounded, loops, c) && Turned(mgs, c, e, t) {
      var x, y := ParentIsListed(mgs, p.induced, bounded, c, m);
      TurnedUsed(p, mgs, bounded, loops, used, e, t, c);
      MarkedUnshadowed(p, mgs, bounded, loops, used, e, t);
      if c.Depth() == e {
        NotBefore(mgs, used, p.induced, bounded, e, t, c);
      }
    }
    if c: MgIr :| ChildOf(mgs, p.induced, bounded, c, m) && c.Depth() > e && InTime(p, mgs, bounded, loops, c) {
      assert Turned(mgs, c, e, t);
    }
  }

  /** What had its turn in time is marked. */
  lemma {:induction false} TurnedUsed(p: PlanIr, mgs: seq<seq<MgIr>>, bounded: set<MgIr>, loops: nat,
                                      used: set<MgIr>, e: nat, t: nat, c: MgIr)
    requires loops <= |p.ops| == |p.iter| < |mgs| && Marked(p, mgs, bounded, loops, used, e, t)
    requires Turned(mgs, c, e, t) && InTime(p, mgs, bounded, loops, c)
    ensures c in used
  {
    hide ReadBy, MgParent;
    if !ReadBy(p, mgs, c, loops) {
      var d: MgIr :| ChildOf(mgs, p.induced, bounded, d, c) && d.Depth() > c.Depth() && InTime(p, mgs, bounded, loops, d);
      assert Turned(mgs, d, e, t);
    }
  }

  /** A marked entry's parent stands before it. */
  lemma {:induction false} NotBefore(mgs: seq<seq<MgIr>>, used: set<MgIr>, induced: bool, bounded: set<MgIr>,
                                     e: nat, t: nat, c: MgIr)
    requires e < |mgs| && t < |mgs[e]| && NoneShadowed(mgs, used, induced, bounded) && c in used
    requires ChildOf(mgs, induced, bounded, c, mgs[e][t]) && c.Depth() == e
    ensures c !in mgs[e][..t]
  {
    hide LastFeed, MayFeed;
    forall u | 0 <= u < t ensures mgs[e][u] != c {
      assert mgs[e][u] in used ==> !Shadowed(mgs, e, u, induced, bounded);
    }
  }

  /** One turn. */
  lemma {:induction false} TurnMarks(p: PlanIr, mgs: seq<seq<MgIr>>, bounded: set<MgIr>, loops: nat,
                                     used: set<MgIr>, e: nat, t: nat, next: set<MgIr>)
    requires Levelled(mgs) && loops <= |p.ops| == |p.iter| < |mgs| && Marked(p, mgs, bounded, loops, used, e, t)
    requires e < |mgs| && t < |mgs[e]| && mgs[e][t].Valid() && mgs[e][t].Depth() == e
    requires next == match MgParent(mgs, mgs[e][t], p.induced, bounded)
      case Some(m) => if mgs[e][t] in used then used + {m} else used
      case None => used
    ensures Marked(p, mgs, bounded, loops, next, e, t + 1)
  {
    hide ReadBy, MgParent, Levelled, InTime;
    MarkedInTime(p, mgs, bounded, loops, used, e, t);
    assert mgs[e][..t + 1] == mgs[e][..t] + [mgs[e][t]];
    forall c ensures Turned(mgs, c, e, t + 1) <==> Turned(mgs, c, e, t) || c == mgs[e][t] {
    }
  }

  lemma {:induction false} NextLoop(p: PlanIr, mgs: seq<seq<MgIr>>, bounded: set<MgIr>, loops: nat, used: set<MgIr>, e: nat)
    requires loops <= |p.ops| == |p.iter| < |mgs| && 0 < e <= |mgs|
    requires if e == |mgs| then Marked(p, mgs, bounded, loops, used, e, 0)
             else Marked(p, mgs, bounded, loops, used, e, |mgs[e]|)
    ensures Marked(p, mgs, bounded, loops, used, e - 1, 0)
  {
    hide ReadBy, ChildOf, InTime;
    var b, t := e - 1, if e == |mgs| then 0 else |mgs[e]|;
    forall c ensures Turned(mgs, c, b, 0) <==> Turned(mgs, c, e, t)
    {
      if e < |mgs| {
        assert mgs[e][..|mgs[e]|] == mgs[e];
      }
    }
  }

  ghost predicate ReadBelow(p: PlanIr, mgs: seq<seq<MgIr>>, m: MgIr, d: nat, k: nat)
    requires d < |p.ops| && k <= |p.ops[d]| && d < |p.iter| && d < |mgs|
  {
    exists t :: 0 <= t < k && Reads(p, mgs, m, d, t)
  }

  lemma {:induction false} ReadBelowStep(p: PlanIr, mgs: seq<seq<MgIr>>, m: MgIr, d: nat, t: nat)
    requires d < |p.ops| && t < |p.ops[d]| && d < |p.iter| && d < |mgs|
    ensures ReadBelow(p, mgs, m, d, t + 1) <==> ReadBelow(p, mgs, m, d, t) || Reads(p, mgs, m, d, t)
  {
    hide Reads;
  }

  method MarkReaders(p: PlanIr, mgs: seq<seq<MgIr>>, loops: nat) returns (used: set<MgIr>)
    requires Shaped(p) && |mgs| == p.n && loops <= |p.ops|
    ensures forall m :: m in used <==> ReadBy(p, mgs, m, loops)
  {
    hide GoodOps, ParentMg, ReadBelow, ReadBy;
    used := {};
    NothingRead(p, mgs);
    for d := 0 to loops
      invariant forall m :: m in used <==> ReadBy(p, mgs, m, d)
    {
      ghost var was := used;
      for t := 0 to |p.ops[d]|
        invariant forall m :: m in used <==> m in was || ReadBelow(p, mgs, m, d, t)
      {
        SetAt(p, d, t);
        var mg := GetParentMg(p, mgs, p.ops[d][t]);
        forall m ensures ReadBelow(p, mgs, m, d, t + 1) <==> ReadBelow(p, mgs, m, d, t) || mg == Some(m) {
          ReadBelowStep(p, mgs, m, d, t);
        }
        if mg.Some? {
          used := used + {mg.value};
        }
      }
      forall m ensures ReadBy(p, mgs, m, d + 1) <==> ReadBy(p, mgs, m, d) || ReadBelow(p, mgs, m, d, |p.ops[d]|) {
        ReadByStep(p, mgs, m, d);
      }
    }
  }

  lemma {:induction false} NothingRead(p: PlanIr, mgs: seq<seq<MgIr>>)
    requires |p.ops| == |p.iter| < |mgs|
    ensures forall m :: !ReadBy(p, mgs, m, 0)
    ensures forall m, d :: 0 <= d < |p.ops| ==> !ReadBelow(p, mgs, m, d, 0)
  {
  }

  lemma {:induction false} ReadByStep(p: PlanIr, mgs: seq<seq<MgIr>>, m: MgIr, d: nat)
    requires d < |p.ops| == |p.iter| < |mgs|
    ensures ReadBy(p, mgs, m, d + 1) <==> ReadBy(p, mgs, m, d) || ReadBelow(p, mgs, m, d, |p.ops[d]|)
  {
    hide Reads;
  }

  /** IndeedUsed: what is marked in the end is what is needed. */
  method MarkUsed(p: PlanIr, mgs: seq<seq<MgIr>>, bounded: set<MgIr>, loops: nat) returns (used: set<MgIr>)
    requires Shaped(p) && |mgs| == p.n && Levelled(mgs) && loops <= |p.ops|
    ensures forall m :: m in used <==> Needed(p, mgs, bounded, loops, m)
    ensures NoneShadowed(mgs, used, p.induced, bounded)
  {
    hide GoodOps, ReadBy, MgParent, Levelled, NoneShadowed, Marked, Needed;
    used := MarkReaders(p, mgs, loops);
    NoTurnYet(p, mgs, bounded, loops, used);
    var e := |mgs|;
    while e > 0
      invariant 0 <= e <= |mgs|
      invariant if e == |mgs| then Marked(p, mgs, bounded, loops, used, e, 0)
                else Marked(p, mgs, bounded, loops, used, e, |mgs[e]|)
    {
      NextLoop(p, mgs, bounded, loops, used, e);
      e := e - 1;
      for t := 0 to |mgs[e]|
        invariant Marked(p, mgs, bounded, loops, used, e, t)
      {
        LevelAt(mgs, e, t);
        TurnMarks(p, mgs, bounded, loops, used, e, t, match MgParent(mgs, mgs[e][t], p.induced, bounded)
          case Some(m) => if mgs[e][t] in used then used + {m} else used
          case None => used);
        if mgs[e][t] in used {
          var parent := GetMgParent(mgs, mgs[e][t], p.induced, bounded);
          if parent.Some? {
            used := used + {parent.value};
          }
        }
      }
    }
    AllTurned(p, mgs, bounded, loops, used);
    MarkedUnshadowed(p, mgs, bounded, loops, used, 0, |mgs[0]|);
  }

  lemma {:induction false} LevelAt(mgs: seq<seq<MgIr>>, e: nat, t: nat)
    requires Levelled(mgs) && e < |mgs| && t < |mgs[e]|
    ensures mgs[e][t].Valid() && mgs[e][t].Depth() == e
  {
  }

  lemma {:induction false} NoTurnYet(p: PlanIr, mgs: seq<seq<MgIr>>, bounded: set<MgIr>, loops: nat, used: set<MgIr>)
    requires loops <= |p.ops| == |p.iter| < |mgs| && forall m :: m in used <==> ReadBy(p, mgs, m, loops)
    ensures Marked(p, mgs, bounded, loops, used, |mgs|, 0)
  {
    hide ReadBy, InTime, ChildOf;
    assert forall c :: !Turned(mgs, c, |mgs|, 0);
  }

  lemma {:induction false} AllTurned(p: PlanIr, mgs: seq<seq<MgIr>>, bounded: set<MgIr>, loops: nat, used: set<MgIr>)
    requires loops <= |p.ops| == |p.iter| < |mgs| && Marked(p, mgs, bounded, loops, used, 0, |mgs[0]|)
    ensures forall m :: m in used <==> Needed(p, mgs, bounded, loops, m)
  {
    hide ReadBy, InTime, MgParent;
    assert mgs[0][..|mgs[0]|] == mgs[0];
    assert forall c :: Listed(mgs, c) ==> Turned(mgs, c, 0, |mgs[0]|);
  }

  // ----- whether parents are kept -----

  /** c marks b, which stands before it in its own loop; but b's turn is over by then, so
      b's parent g stays unmarked. */
  ghost predicate Skipped(p: PlanIr, mgs: seq<seq<MgIr>>, bounded: set<MgIr>, loops: nat, c: MgIr, b: MgIr, g: MgIr)
    requires loops <= |p.ops| == |p.iter| < |mgs|
  {
    && ChildOf(mgs, p.induced, bounded, c, b) && InTime(p, mgs, bounded, loops, c)
    && ChildOf(mgs, p.induced, bounded, b, g) && !InTime(p, mgs, bounded, loops, b)
    && !Needed(p, mgs, bounded, loops, g)
  }

  ghost predicate ParentsNeeded(p: PlanIr, mgs: seq<seq<MgIr>>, bounded: set<MgIr>, loops: nat)
    requires loops <= |p.ops| == |p.iter| < |mgs|
  {
    forall m :: Needed(p, mgs, bounded, loops, m) <==>
      || ReadBy(p, mgs, m, loops)
      || exists c :: ChildOf(mgs, p.induced, bounded, c, m) && Needed(p, mgs, bounded, loops, c)
  }

  lemma {:induction false} InTimeIsNeeded(p: PlanIr, mgs: seq<seq<MgIr>>, bounded: set<MgIr>, loops: nat, m: MgIr)
    requires loops <= |p.ops| == |p.iter| < |mgs| && InTime(p, mgs, bounded, loops, m)
    ensures Needed(p, mgs, bounded, loops, m)
  {
    hide ReadBy, ChildOf;
  }

  /** Needed means read, or parent of a needed one, exactly when no parent is skipped. */
  lemma {:induction false} ParentsNeededIff(p: PlanIr, mgs: seq<seq<MgIr>>, bounded: set<MgIr>, loops: nat)
    requires loops <= |p.ops| == |p.iter| < |mgs|
    ensures ParentsNeeded(p, mgs, bounded, loops) <==> forall c, b, g :: !Skipped(p, mgs, bounded, loops, c, b, g)
  {
    hide ReadBy, ChildOf, InTime;
    forall m ensures Needed(p, mgs, bounded, loops, m) ==>
      || ReadBy(p, mgs, m, loops)
      || exists c :: ChildOf(mgs, p.induced, bounded, c, m) && Needed(p, mgs, bounded, loops, c)
    {
      if c :| ChildOf(mgs, p.induced, bounded, c, m) && InTime(p, mgs, bounded, loops, c) {
        InTimeIsNeeded(p, mgs, bounded, loops, c);
      }
    }
    if forall c, b, g :: !Skipped(p, mgs, bounded, loops, c, b, g) {
      forall m, c | ChildOf(mgs, p.induced, bounded, c, m) && Needed(p, mgs, bounded, loops, c)
        ensures Needed(p, mgs, bounded, loops, m)
      {
        UnskippedNeeded(p, mgs, bounded, loops, m, c);
      }
    }
    if c, b, g :| Skipped(p, mgs, bounded, loops, c, b, g) {
      assert Needed(p, mgs, bounded, loops, b);
    }
  }

  lemma {:induction false} UnskippedNeeded(p: PlanIr, mgs: seq<seq<MgIr>>, bounded: set<MgIr>, loops: nat, m: MgIr, c: MgIr)
    requires loops <= |p.ops| == |p.iter| < |mgs|
    requires ChildOf(mgs, p.induced, bounded, c, m) && Needed(p, mgs, bounded, loops, c)
    requires forall x, b, g :: !Skipped(p, mgs, bounded, loops, x, b, g)
    ensures Needed(p, mgs, bounded, loops, m)
  {
    hide ReadBy, MgParent;
    if !InTime(p, mgs, bounded, loops, c) {
      var x :| ChildOf(mgs, p.induced, bounded, x, c) && InTime(p, mgs, bounded, loops, x);
      assert !Skipped(p, mgs, bounded, loops, x, c, m);
    }
  }
}
