/** get_parent_mg for minigraphs, and the order in which a loop builds them. */
module MgOrder {
  import opened Counting
  import opened Ir
  import opened Plans
  import opened MgPlan

  // ----- parents of minigraphs -----

  /** The rows of `child` can be cut from the rows of `parent`. */
  predicate MayFeed(parent: MgIr, child: MgIr, induced: bool, bounded: set<MgIr>) {
    && Covers(parent, child.vertices, child.intersect, induced) && parent != child
    && !(parent in bounded && child !in bounded)
  }

  /** The last feeding minigraph among the first t of loop e and all of the loops before. */
  function LastFeed(mgs: seq<seq<MgIr>>, child: MgIr, induced: bool, bounded: set<MgIr>, e: nat, t: nat): (r: Option<MgIr>)
    requires e <= |mgs| && (if e < |mgs| then t <= |mgs[e]| else t == 0)
    ensures r.Some? ==> MayFeed(r.value, child, induced, bounded)
    decreases e, t
  {
    if t > 0 then
      if MayFeed(mgs[e][t - 1], child, induced, bounded) then Some(mgs[e][t - 1])
      else LastFeed(mgs, child, induced, bounded, e, t - 1)
    else if e > 0 then
      LastFeed(mgs, child, induced, bounded, e - 1, |mgs[e - 1]|)
    else
      None
  }

  function MgParent(mgs: seq<seq<MgIr>>, child: MgIr, induced: bool, bounded: set<MgIr>): (r: Option<MgIr>)
    requires child.Valid() && child.Depth() < |mgs|
    ensures r.Some? ==> MayFeed(r.value, child, induced, bounded)
  {
    LastFeed(mgs, child, induced, bounded, child.Depth() + 1, 0)
  }

  ghost predicate FeedsAt(mgs: seq<seq<MgIr>>, child: MgIr, induced: bool, bounded: set<MgIr>, e: nat, t: nat) {
    e < |mgs| && t < |mgs[e]| && MayFeed(mgs[e][t], child, induced, bounded)
  }

  /** The scan up to entry t of loop e has found the last feeding minigraph. */
  lemma {:induction false} FeedListed(mgs: seq<seq<MgIr>>, child: MgIr, induced: bool, bounded: set<MgIr>, e: nat, t: nat)
    returns (a: nat, b: nat)
    requires e <= |mgs| && (if e < |mgs| then t <= |mgs[e]| else t == 0)
    ensures var r := LastFeed(mgs, child, induced, bounded, e, t);
      if r.None? then
        forall c: nat, d: nat :: c < e || (c == e && d < t) ==> !FeedsAt(mgs, child, induced, bounded, c, d)
      else
        && (a < e || (a == e && b < t)) && FeedsAt(mgs, child, induced, bounded, a, b) && r.value == mgs[a][b]
        && forall c: nat, d: nat :: (c < e || (c == e && d < t)) && (a < c || (a == c && b < d)) ==>
             !FeedsAt(mgs, child, induced, bounded, c, d)
    decreases e, t
  {
    hide MayFeed;
    if t > 0 {
      if MayFeed(mgs[e][t - 1], child, induced, bounded) {
        a, b := e, t - 1;
      } else {
        a, b := FeedListed(mgs, child, induced, bounded, e, t - 1);
      }
    } else if e > 0 {
      a, b := FeedListed(mgs, child, induced, bounded, e - 1, |mgs[e - 1]|);
    } else {
      a, b := 0, 0;
    }
  }

  /** Entry t of loop e feeds, and no entry behind it up to the child's loop does. */
  ghost predicate LastFeedAt(mgs: seq<seq<MgIr>>, child: MgIr, induced: bool, bounded: set<MgIr>, e: nat, t: nat)
    requires child.Valid()
  {
    && e <= child.Depth() && FeedsAt(mgs, child, induced, bounded, e, t)
    && forall a: nat, b: nat :: a <= child.Depth() && (e < a || (e == a && t < b)) ==> !FeedsAt(mgs, child, induced, bounded, a, b)
  }

  lemma {:induction false} MgParentIs(mgs: seq<seq<MgIr>>, child: MgIr, induced: bool, bounded: set<MgIr>)
    requires child.Valid() && child.Depth() < |mgs|
    ensures var r := MgParent(mgs, child, induced, bounded);
      if r.None? then
        forall e: nat, t: nat :: e <= child.Depth() ==> !FeedsAt(mgs, child, induced, bounded, e, t)
      else
        exists e: nat, t: nat :: LastFeedAt(mgs, child, induced, bounded, e, t) && r == Some(mgs[e][t])
  {
    hide MayFeed, LastFeed;
    var a, b := FeedListed(mgs, child, induced, bounded, child.Depth() + 1, 0);
    if MgParent(mgs, child, induced, bounded).Some? {
      assert LastFeedAt(mgs, child, induced, bounded, a, b);
    }
  }

  /** get_parent_mg of a minigraph: the last feeding one of its own loop and the loops before. */
  method GetMgParent(mgs: seq<seq<MgIr>>, child: MgIr, induced: bool, bounded: set<MgIr>) returns (out: Option<MgIr>)
    requires child.Valid() && child.Depth() < |mgs|
    ensures out == MgParent(mgs, child, induced, bounded)
    ensures out.None? ==> forall e: nat, t: nat :: e <= child.Depth() ==> !FeedsAt(mgs, child, induced, bounded, e, t)
    ensures out.Some? ==> exists e: nat, t: nat :: LastFeedAt(mgs, child, induced, bounded, e, t) && out == Some(mgs[e][t])
  {
    hide MayFeed, FeedsAt, LastFeedAt;
    MgParentIs(mgs, child, induced, bounded);
    out := None;
    for e := 0 to child.Depth() + 1
      invariant out == LastFeed(mgs, child, induced, bounded, e, 0)
    {
      for t := 0 to |mgs[e]|
        invariant out == LastFeed(mgs, child, induced, bounded, e, t)
      {
        if MayFeed(mgs[e][t], child, induced, bounded) {
          out := Some(mgs[e][t]);
        }
      }
    }
  }

  // ----- later minigraphs of the same loop -----

  lemma {:induction false} SupersetChain(a: SetIr, b: SetIr, c: SetIr, induced: bool)
    requires SupersetOf(a, b, induced) && SupersetOf(b, c, induced)
    ensures SupersetOf(a, c, induced)
  {
  }

  lemma {:induction false} SupersetBothWays(a: SetIr, b: SetIr, induced: bool)
    requires SupersetOf(a, b, induced) && SupersetOf(b, a, induced)
    ensures a == b
  {
    assert a.edges == b.edges && a.restricts == b.restricts;
  }

  /** Some later minigraph of the same loop feeds entry t. */
  ghost predicate Shadowed(mgs: seq<seq<MgIr>>, e: nat, t: nat, induced: bool, bounded: set<MgIr>)
    requires e < |mgs| && t < |mgs[e]|
  {
    exists u :: t < u < |mgs[e]| && MayFeed(mgs[e][u], mgs[e][t], induced, bounded)
  }

  /** A sum of lists without repetition, level by level. */
  ghost predicate Levelled(mgs: seq<seq<MgIr>>) {
    && (forall e :: 0 <= e < |mgs| ==> Distinct(mgs[e]))
    && (forall e, t :: 0 <= e < |mgs| && 0 <= t < |mgs[e]| ==> mgs[e][t].Valid() && mgs[e][t].Depth() == e)
  }

  /** No set reads a minigraph that a later one of its loop feeds: the later one covers
      the set as well. */
  lemma {:induction false} ReadIsUnshadowed(p: PlanIr, mgs: seq<seq<MgIr>>, bounded: set<MgIr>, op: SetIr, e: nat, t: nat)
    requires Levelled(mgs) && op.Valid() && op.Depth() <= |mgs| && op.Depth() <= |p.iter|
    requires e < |mgs| && t < |mgs[e]| && e < op.Depth() && ParentMg(p, mgs, op) == Some(mgs[e][t])
    ensures !Shadowed(mgs, e, t, p.induced, bounded)
  {
    hide SupersetOf, LastCover;
    var m, vertices := mgs[e][t], p.iter[op.Depth() - 1];
    var a, b := LastCoverIs(mgs, vertices, op, p.induced, op.Depth(), 0);
    SamePlace(mgs, a, b, e, t);
    forall u | t < u < |mgs[e]| ensures !MayFeed(mgs[e][u], m, p.induced, bounded) {
      assert !CoversAt(mgs, vertices, op, p.induced, e, u);
      if MayFeed(mgs[e][u], m, p.induced, bounded) {
        SupersetChain(mgs[e][u].vertices, m.vertices, vertices, p.induced);
        SupersetChain(mgs[e][u].intersect, m.intersect, op, p.induced);
      }
    }
  }

  /** Nor is such a minigraph the parent of another one. */
  lemma {:induction false} ParentIsUnshadowed(mgs: seq<seq<MgIr>>, child: MgIr, induced: bool, bounded: set<MgIr>, e: nat, t: nat)
    requires Levelled(mgs) && child.Valid() && e <= child.Depth() < |mgs| && t < |mgs[e]|
    requires MgParent(mgs, child, induced, bounded) == Some(mgs[e][t])
    ensures !Shadowed(mgs, e, t, induced, bounded)
  {
    hide SupersetOf, LastFeed;
    var m := mgs[e][t];
    var a, b := FeedListed(mgs, child, induced, bounded, child.Depth() + 1, 0);
    SamePlace(mgs, a, b, e, t);
    forall u | t < u < |mgs[e]| ensures !MayFeed(mgs[e][u], m, induced, bounded) {
      assert !FeedsAt(mgs, child, induced, bounded, e, u);
      var p := mgs[e][u];
      if MayFeed(p, m, induced, bounded) {
        FeedsOn(p, m, child, induced, bounded);
      }
    }
  }

  /** Whatever feeds a parent feeds its child. */
  lemma {:induction false} FeedsOn(p: MgIr, m: MgIr, child: MgIr, induced: bool, bounded: set<MgIr>)
    requires MayFeed(p, m, induced, bounded) && MayFeed(m, child, induced, bounded)
    ensures MayFeed(p, child, induced, bounded)
  {
    hide SupersetOf;
    SupersetChain(p.vertices, m.vertices, child.vertices, induced);
    SupersetChain(p.intersect, m.intersect, child.intersect, induced);
    if p == child {
      SupersetBothWays(p.vertices, m.vertices, induced);
      SupersetBothWays(p.intersect, m.intersect, induced);
    }
  }

  /** The parent of everything in `used` comes from an earlier loop, or earlier in its own. */
  ghost predicate NoneShadowed(mgs: seq<seq<MgIr>>, used: set<MgIr>, induced: bool, bounded: set<MgIr>) {
    forall e, t :: 0 <= e < |mgs| && 0 <= t < |mgs[e]| && mgs[e][t] in used ==> !Shadowed(mgs, e, t, induced, bounded)
  }

  lemma {:induction false} SamePlace(mgs: seq<seq<MgIr>>, e: nat, t: nat, a: nat, b: nat)
    requires Levelled(mgs) && e < |mgs| && t < |mgs[e]| && a < |mgs| && b < |mgs[a]| && mgs[e][t] == mgs[a][b]
    ensures e == a && t == b
  {
    assert mgs[e][t].Depth() == e && mgs[a][b].Depth() == a;
  }

  // ----- the build order -----

  /** When a loop builds entry t, its parent exists already. */
  ghost predicate ParentReady(mgs: seq<seq<MgIr>>, e: nat, t: nat, induced: bool, bounded: set<MgIr>)
    requires e < |mgs| && t < |mgs[e]| && mgs[e][t].Valid() && mgs[e][t].Depth() == e
  {
    match MgParent(mgs, mgs[e][t], induced, bounded)
    case None => true
    case Some(p) =>
      p.Valid() && p.Depth() <= e && (if p.Depth() < e then p in mgs[p.Depth()] else p in mgs[e][..t])
  }

  ghost predicate BuildOrder(mgs: seq<seq<MgIr>>, induced: bool, bounded: set<MgIr>) {
    forall e, t :: 0 <= e < |mgs| && 0 <= t < |mgs[e]| ==>
      mgs[e][t].Valid() && mgs[e][t].Depth() == e && ParentReady(mgs, e, t, induced, bounded)
  }

  /** Unshadowed lists can be built in order. */
  lemma {:induction false} UnshadowedOrder(mgs: seq<seq<MgIr>>, induced: bool, bounded: set<MgIr>)
    requires Levelled(mgs)
    requires forall e, t :: 0 <= e < |mgs| && 0 <= t < |mgs[e]| ==> !Shadowed(mgs, e, t, induced, bounded)
    ensures BuildOrder(mgs, induced, bounded)
  {
    hide LastFeed, MayFeed, Shadowed;
    forall e: nat, t: nat | e < |mgs| && t < |mgs[e]|
      ensures mgs[e][t].Valid() && mgs[e][t].Depth() == e && ParentReady(mgs, e, t, induced, bounded)
    {
      UnshadowedReady(mgs, induced, bounded, e, t);
    }
  }

  lemma {:induction false} UnshadowedReady(mgs: seq<seq<MgIr>>, induced: bool, bounded: set<MgIr>, e: nat, t: nat)
    requires Levelled(mgs) && e < |mgs| && t < |mgs[e]| && !Shadowed(mgs, e, t, induced, bounded)
    ensures mgs[e][t].Valid() && mgs[e][t].Depth() == e && ParentReady(mgs, e, t, induced, bounded)
  {
    hide LastFeed, Covers;
    var c := mgs[e][t];
    if MgParent(mgs, c, induced, bounded).Some? {
      var a, b := FeedListed(mgs, c, induced, bounded, e + 1, 0);
      assert mgs[a][b].Valid() && mgs[a][b].Depth() == a;
      if a == e {
        assert b != t;
        assert b < t;
        assert mgs[e][..t][b] == mgs[a][b];
      }
    }
  }
}
