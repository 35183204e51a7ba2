/** A compiled plan in which a kept minigraph's parent is dropped. The pattern has the edges
    0-1, 0-2, 0-3, 0-4, 0-5, 3-4 and 4-5 and the restrictions (1,3), (3,4) and (2,5). */
module MgSkipped {
  import opened Patterns
  import opened Ir
  import opened Plans
  import opened MgPlan
  import opened MgCollect
  import opened MgOrder
  import opened MgMark

  // ----- the pattern and its plan -----

  function Edges(): Matrix {
    [[false, true, true, true, true, true],
     [true, false, false, false, false, false],
     [true, false, false, false, false, false],
     [true, false, false, false, true, false],
     [true, false, false, true, false, true],
     [true, false, false, false, true, false]]
  }

  /** res[v][u]: v's id is below u's. */
  function Smaller(): Matrix {
    [[false, false, false, false, false, false],
     [false, false, false, false, false, false],
     [false, false, false, false, false, false],
     [false, true, false, false, false, false],
     [false, true, false, true, false, false],
     [false, false, true, false, false, false]]
  }

  function Of(vid: nat, d: nat): (op: SetIr)
    requires vid < 6 && d < 6
    ensures op.Valid() && op.Depth() == d
  {
    SetOf(Edges(), Smaller(), vid, d)
  }

  function ThePlan(): PlanIr {
    PlanIr(6, false,
      [[Of(1, 0)], [Of(2, 1), Of(3, 1)], [Of(5, 2), Of(3, 2)], [Of(5, 3), Of(4, 3)], [Of(5, 4)]],
      [Of(1, 0), Of(2, 1), Of(3, 2), Of(4, 3), Of(5, 4)])
  }

  function TheQuery(): Query {
    Query(6, Edges(), false)
  }

  lemma {:induction false} QueryIsValid()
    ensures TheQuery().Valid() && Square(Smaller(), 6)
  {
  }

  /** Rows 2 to 5 agree on the edges below 3. */
  lemma {:induction false} OfEdges(vid: nat, d: nat)
    requires 0 < vid < 6 && d < 6
    ensures Ones(Of(vid, d).edges) > 0
    ensures vid >= 2 && d < 3 ==> Of(vid, d).edges == [true, false, false][..d + 1]
  {
    hide Ones;
    var b := Of(vid, d).edges;
    assert b[0];
    SomeOne(b);
  }

  lemma {:induction false} OfCut(vid: nat, d: nat, e: nat)
    requires 0 < vid < 6 && e <= d < 6
    ensures CutTo(Of(vid, d), e) == Some(Of(vid, e))
  {
    hide Ones;
    OfEdges(vid, e);
    assert Of(vid, d).edges[..e + 1] == Of(vid, e).edges;
    assert Of(vid, d).restricts[..e + 1] == Of(vid, e).restricts;
  }

  /** Rows that bring the same set. */
  lemma {:induction false} OfSame()
    ensures forall vid :: 1 <= vid < 6 ==> Of(vid, 0) == Of(1, 0)
    ensures Of(4, 1) == Of(3, 1) && Of(5, 1) == Of(2, 1) && Of(4, 2) == Of(3, 2)
  {
    forall vid | 1 <= vid < 6 ensures Of(vid, 0) == Of(1, 0) {
      assert Of(vid, 0).edges == [true] && Of(vid, 0).restricts == [false];
      assert Of(1, 0).edges == [true] && Of(1, 0).restricts == [false];
    }
    OfEdges(2, 1); OfEdges(3, 1); OfEdges(4, 1); OfEdges(5, 1); OfEdges(4, 2); OfEdges(3, 2);
    assert Of(4, 1).restricts == Of(3, 1).restricts == [false, true];
    assert Of(5, 1).restricts == Of(2, 1).restricts == [false, false];
    assert Of(4, 2).restricts == Of(3, 2).restricts == [false, true, false];
  }

  lemma {:induction false} OneSet(a: nat, d: nat)
    requires d < a < 6 && Square(Edges(), 6) && Square(Smaller(), 6)
    requires forall vid :: d < vid < 6 ==> Of(vid, d) == Of(a, d)
    ensures LevelOf([Of(a, d)], Edges(), Smaller(), d)
  {
    OfEdges(a, d);
    hide Ones, Edges, Smaller;
    assert ServesVertex(Of(a, d), Edges(), Smaller(), d, a);
    forall op | Serves(op, Edges(), Smaller(), d) ensures op == Of(a, d) {
      var vid: nat :| vid < 6 && ServesVertex(op, Edges(), Smaller(), d, vid);
      assert op == Of(vid, d);
    }
  }

  lemma {:induction false} TwoSets(a: nat, b: nat, d: nat)
    requires d < a < 6 && d < b < 6 && Square(Edges(), 6) && Square(Smaller(), 6)
    requires forall vid :: d < vid < 6 ==> Of(vid, d) == Of(a, d) || Of(vid, d) == Of(b, d)
    requires Of(a, d) != Of(b, d)
    requires Of(a, d).Restricted() ==> Of(b, d).restricts != Of(a, d).restricts[d := false]
    ensures LevelOf([Of(a, d), Of(b, d)], Edges(), Smaller(), d)
  {
    OfEdges(a, d);
    OfEdges(b, d);
    hide Ones, Edges, Smaller;
    assert ServesVertex(Of(a, d), Edges(), Smaller(), d, a);
    assert ServesVertex(Of(b, d), Edges(), Smaller(), d, b);
    forall op | Serves(op, Edges(), Smaller(), d) ensures op == Of(a, d) || op == Of(b, d) {
      var vid: nat :| vid < 6 && ServesVertex(op, Edges(), Smaller(), d, vid);
      assert op == Of(vid, d);
    }
    assert Of(a, d).Restricted() ==> Of(b, d) != Of(a, d).Unbounded();
  }

  lemma {:induction false} LevelIs(d: nat)
    requires d < 5
    ensures Square(Edges(), 6) && Square(Smaller(), 6) && LevelOf(ThePlan().ops[d], Edges(), Smaller(), d)
  {
    QueryIsValid();
    OfSame();
    Apart();
    hide Of, Edges, Smaller, LevelOf;
    if d == 0 {
      OneSet(1, 0);
    } else if d == 1 {
      TwoSets(2, 3, 1);
    } else if d == 2 {
      assert Of(5, 2).restricts[2 := false][1] != Of(3, 2).restricts[1];
      TwoSets(5, 3, 2);
    } else if d == 3 {
      TwoSets(5, 4, 3);
    } else {
      OneSet(5, 4);
    }
  }

  lemma {:induction false} Apart()
    ensures Of(2, 1).restricts == [false, false] && Of(3, 1).restricts == [false, true]
    ensures Of(5, 2).restricts == [false, false, true] && Of(3, 2).restricts == [false, true, false]
    ensures Of(5, 3).restricts == [false, false, true, false] && Of(4, 3).restricts == [false, true, false, true]
    ensures Of(4, 3).edges[3] && Of(5, 4).edges[4] && !Of(5, 4).Restricted()
    ensures !Of(5, 3).edges[3] && !Of(3, 2).edges[2] && !Of(5, 2).edges[2] && !Of(2, 1).edges[1] && !Of(3, 1).edges[1]
  {
  }

  lemma {:induction false} PlanIsCompiled()
    ensures TheQuery().Valid() && Square(Smaller(), 6) && Compiled(ThePlan(), TheQuery(), Smaller())
  {
    hide Ones, LevelOf;
    QueryIsValid();
    forall d | 0 <= d < 5 ensures LevelOf(ThePlan().ops[d], Edges(), Smaller(), d)
      && ThePlan().iter[d] == SetOf(Edges(), Smaller(), d + 1, d) && Ones(ThePlan().iter[d].edges) > 0
    {
      LevelIs(d);
      OfEdges(d + 1, d);
    }
  }

  lemma {:induction false} PlanIsShaped()
    ensures Shaped(ThePlan())
  {
    hide Compiled, Of, Edges, Smaller;
    PlanIsCompiled();
    CompiledIsGood(ThePlan(), TheQuery(), Smaller());
    forall d | 0 <= d < 5 ensures ThePlan().iter[d] in ThePlan().ops[d] {
      IterIsListed(ThePlan(), TheQuery(), Smaller(), d);
    }
  }

  // ----- its minigraphs -----

  function G(): MgIr {
    MgIr(Of(1, 0), Of(1, 0))
  }

  function B(): MgIr {
    MgIr(Of(3, 1), Of(2, 1))
  }

  function C(): MgIr {
    MgIr(Of(3, 1), Of(3, 1))
  }

  function D(): MgIr {
    MgIr(Of(3, 2), Of(5, 2))
  }

  function Lists(): seq<seq<MgIr>> {
    [[G()], [B(), C()], [D()], [], [], []]
  }

  function Flags(): set<MgIr> {
    {G(), B(), C()}
  }

  lemma {:induction false} AllDiffer()
    ensures G() != B() && G() != C() && G() != D() && B() != C() && B() != D() && C() != D()
  {
    Apart();
    hide Edges, Smaller;
    assert |Of(1, 0).edges| == 1 && |Of(3, 1).edges| == 2 && |Of(3, 2).edges| == 3;
  }

  /** Which minigraph the cuts of two rows make. */
  lemma {:induction false} CutsAre(e: nat)
    requires e < 3
    ensures e < 2 ==> MgIr(Of(3, e), Of(4, e)) == if e == 0 then G() else C()
    ensures MgIr(Of(4, e), Of(5, e)) == if e == 0 then G() else if e == 1 then B() else D()
  {
    OfSame();
  }

  lemma {:induction false} WantedIs(e: nat, m: MgIr, comp: nat, t: nat)
    requires 2 <= comp < 5 && t < |ThePlan().ops[comp]|
    ensures Shaped(ThePlan())
    ensures WantedBy(ThePlan(), false, e, m, comp, t) <==>
      || (comp == 3 && t == 1 && e < 2 && m == if e == 0 then G() else C())
      || (comp == 4 && e < 3 && m == if e == 0 then G() else if e == 1 then B() else D())
  {
    PlanIsShaped();
    Apart();
    if e + 2 <= comp {
      OfCut(3, 2, if e < 2 then e else 2);
      OfCut(4, 3, e);
      OfCut(5, 4, e);
      CutsAre(e);
    }
    hide Of, Edges, Smaller, CutTo, Shaped, ServesNext;
  }

  lemma {:induction false} ListsAreCollected()
    ensures Shaped(ThePlan()) && Collected(ThePlan(), false, 5, Lists())
  {
    hide WantedBy, Of, Edges, Smaller, G, B, C, D, Shaped;
    PlanIsShaped();
    AllDiffer();
    var p := ThePlan();
    forall e, m | 0 <= e < 6 ensures m in Lists()[e] <==> WantedFrom(p, false, 5, e, m, 2) {
      WantedTwice(e, m);
    }
  }

  lemma {:induction false} WantedTwice(e: nat, m: MgIr)
    requires e < 6
    ensures Shaped(ThePlan())
    ensures m in Lists()[e] <==> WantedFrom(ThePlan(), false, 5, e, m, 2)
  {
    hide WantedBy, Of, Edges, Smaller, G, B, C, D, Shaped;
    PlanIsShaped();
    var p := ThePlan();
    if m in Lists()[e] {
      WantedIs(e, m, 3, 1);
      WantedIs(e, m, 4, 0);
      assert WantedBy(p, false, e, m, 3, 1) || WantedBy(p, false, e, m, 4, 0);
      assert WantedAt(p, false, e, m, 3, 2) || WantedAt(p, false, e, m, 4, 1);
    }
    if WantedFrom(p, false, 5, e, m, 2) {
      var comp :| 2 <= comp < 5 && WantedAt(p, false, e, m, comp, |p.ops[comp]|);
      var t :| 0 <= t < |p.ops[comp]| && WantedBy(p, false, e, m, comp, t);
      WantedIs(e, m, comp, t);
    }
  }

  lemma {:induction false} OfSuperset(v: nat, a: nat, w: nat, b: nat)
    requires 2 <= v < 6 && 2 <= w < 6 && a < 3 && a <= b < 6
    requires forall i :: 0 <= i <= a && Of(v, a).restricts[i] ==> Of(w, b).restricts[i]
    ensures SupersetOf(Of(v, a), Of(w, b), false)
  {
    OfEdges(v, a);
    assert Of(w, b).edges[0];
  }

  lemma {:induction false} Covering()
    ensures Covers(C(), Of(3, 2), Of(4, 3), false) && !Covers(D(), Of(3, 2), Of(4, 3), false)
    ensures Covers(D(), Of(4, 3), Of(5, 4), false)
    ensures Covers(B(), C().vertices, C().intersect, false) && !Covers(C(), B().vertices, B().intersect, false)
    ensures Covers(G(), B().vertices, B().intersect, false) && !Covers(C(), D().vertices, D().intersect, false)
  {
    Apart();
    OfSame();
    assert Of(5, 4).restricts == [false, false, true, false, false];
    hide Edges, Smaller, Of;
    OfSuperset(3, 1, 3, 2);
    OfSuperset(3, 1, 4, 3);
    OfSuperset(3, 2, 4, 3);
    OfSuperset(5, 2, 5, 4);
    OfSuperset(3, 1, 3, 1);
    OfSuperset(2, 1, 3, 1);
    OfSuperset(3, 0, 3, 1);
    OfSuperset(3, 0, 2, 1);
    hide SupersetOf;
    NotSuperset(Of(5, 2), Of(4, 3), 2);
    NotSuperset(Of(3, 1), Of(2, 1), 1);
    NotSuperset(Of(3, 1), Of(5, 2), 1);
  }

  lemma {:induction false} NotSuperset(a: SetIr, b: SetIr, i: nat)
    requires a.Valid() && b.Valid() && i < |a.restricts| && i < |b.restricts| && a.restricts[i] && !b.restricts[i]
    ensures !SupersetOf(a, b, false)
  {
  }

  lemma {:induction false} ParentsAre()
    ensures G().Valid() && B().Valid() && C().Valid() && D().Valid()
    ensures G().Depth() == 0 && B().Depth() == 1 && C().Depth() == 1 && D().Depth() == 2
    ensures MgParent(Lists(), G(), false, Flags()) == None && MgParent(Lists(), B(), false, Flags()) == Some(G())
    ensures MgParent(Lists(), C(), false, Flags()) == Some(B()) && MgParent(Lists(), D(), false, Flags()) == None
  {
    Covering();
    AllDiffer();
    hide Of, Covers, LastFeed;
    assert G().Valid() && B().Valid() && C().Valid() && D().Valid();
    hide G, B, C, D, MgIr.Valid;
    FeedStep(G(), 0, 1);
    FeedStep(B(), 1, 2);
    FeedStep(B(), 1, 1);
    FeedStep(B(), 0, 1);
    FeedStep(C(), 1, 2);
    FeedStep(C(), 1, 1);
    FeedStep(D(), 2, 1);
    FeedStep(D(), 1, 2);
    FeedStep(D(), 1, 1);
    FeedStep(D(), 0, 1);
  }

  /** One step of the scan for a parent, back to front. */
  lemma {:induction false} FeedStep(child: MgIr, e: nat, t: nat)
    requires e < 3 && 0 < t <= |Lists()[e]|
    ensures LastFeed(Lists(), child, false, Flags(), e + 1, 0) == LastFeed(Lists(), child, false, Flags(), e, |Lists()[e]|)
    ensures LastFeed(Lists(), child, false, Flags(), e, t)
      == if MayFeed(Lists()[e][t - 1], child, false, Flags()) then Some(Lists()[e][t - 1])
         else LastFeed(Lists(), child, false, Flags(), e, t - 1)
    ensures LastFeed(Lists(), child, false, Flags(), 0, 0) == None
  {
    hide MayFeed, G, B, C, D;
  }

  lemma {:induction false} ReadsAre(d: nat, t: nat, m: MgIr)
    requires d < 5 && t < |ThePlan().ops[d]|
    ensures Reads(ThePlan(), Lists(), m, d, t) <==> (d == 3 && t == 1 && m == C()) || (d == 4 && m == D())
  {
    Covering();
    Apart();
    hide Of, Covers, LastCover, Edges, Smaller;
    ReadStep(Of(3, 2), Of(4, 3), 2, 1);
    ReadStep(Of(3, 2), Of(4, 3), 1, 2);
    ReadStep(Of(4, 3), Of(5, 4), 2, 1);
    ReadDown(Of(3, 2), Of(4, 3), 2);
    ReadDown(Of(3, 2), Of(4, 3), 1);
    ReadDown(Of(4, 3), Of(5, 4), 3);
    ReadDown(Of(4, 3), Of(5, 4), 2);
  }

  /** One step of the scan for a minigraph to read, back to front. */
  lemma {:induction false} ReadStep(vertices: SetIr, op: SetIr, e: nat, t: nat)
    requires e < 4 && 0 < t <= |Lists()[e]|
    ensures LastCover(Lists(), vertices, op, false, e, t)
      == if Covers(Lists()[e][t - 1], vertices, op, false) then Some(Lists()[e][t - 1])
         else LastCover(Lists(), vertices, op, false, e, t - 1)
  {
    hide Covers, G, B, C, D;
  }

  lemma {:induction false} ReadDown(vertices: SetIr, op: SetIr, e: nat)
    requires e < 4
    ensures LastCover(Lists(), vertices, op, false, e + 1, 0) == LastCover(Lists(), vertices, op, false, e, |Lists()[e]|)
  {
    hide Covers, G, B, C, D;
  }

  lemma {:induction false} FlagsAreRight()
    ensures Flagged(ThePlan(), Lists(), Flags(), Members(Lists()), 5)
  {
    hide Reads, G, B, C, D;
    var p := ThePlan();
    MembersAre();
    AllDiffer();
    Apart();
    forall m, d | 0 <= d < 5 && m != D() ensures FlagOk(p, Lists(), m, d, |p.ops[d]|) {
      forall t | 0 <= t < |p.ops[d]| && Reads(p, Lists(), m, d, t) ensures p.ops[d][t].Restricted() {
        ReadsAre(d, t, m);
      }
    }
    ReadsAre(4, 0, D());
    assert !FlagOk(p, Lists(), D(), 4, |p.ops[4]|);
  }

  lemma {:induction false} MembersAre()
    ensures Members(Lists()) == {G(), B(), C(), D()}
  {
    hide G, B, C, D;
    var l := Lists();
    assert l[0][0] == G() && l[1][0] == B() && l[1][1] == C() && l[2][0] == D();
  }

  lemma {:induction false} ChildrenAre(c: MgIr, m: MgIr)
    ensures ChildOf(Lists(), false, Flags(), c, m) <==> (c == B() && m == G()) || (c == C() && m == B())
  {
    ParentsAre();
    AllDiffer();
    hide G, B, C, D, MgParent, Flags;
    assert Lists()[0] == [G()] && Lists()[1] == [B(), C()] && Lists()[2] == [D()];
  }

  lemma {:induction false} OnlyReadAre(m: MgIr)
    ensures ReadBy(ThePlan(), Lists(), m, 5) <==> m == C() || m == D()
  {
    hide Reads, G, B, C, D;
    var p := ThePlan();
    ReadsAre(3, 1, m);
    ReadsAre(4, 0, m);
    if ReadBy(p, Lists(), m, 5) {
      var d, t :| 0 <= d < 5 && 0 <= t < |p.ops[d]| && Reads(p, Lists(), m, d, t);
      ReadsAre(d, t, m);
    }
  }

  /** The set of loop 3 reads C, whose parent B is therefore kept; but B's parent G is not. */
  lemma {:induction false} ParentSkipped()
    ensures TheQuery().Valid() && Square(Smaller(), 6) && Compiled(ThePlan(), TheQuery(), Smaller())
    ensures Shaped(ThePlan()) && Collected(ThePlan(), false, 5, Lists())
    ensures Flagged(ThePlan(), Lists(), Flags(), Members(Lists()), 5)
    ensures Skipped(ThePlan(), Lists(), Flags(), 5, C(), B(), G())
    ensures Needed(ThePlan(), Lists(), Flags(), 5, B()) && !ParentsNeeded(ThePlan(), Lists(), Flags(), 5)
  {
    PlanIsCompiled();
    ListsAreCollected();
    FlagsAreRight();
    AllDiffer();
    ParentsAre();
    var p, l := ThePlan(), Lists();
    assert !p.induced && |p.ops| == |p.iter| == 5 && |l| == 6;
    hide *;
    OnlyReadAre(C());
    OnlyReadAre(B());
    OnlyReadAre(G());
    ChildrenAre(C(), B());
    ChildrenAre(B(), G());
    forall x ensures (ChildOf(l, false, Flags(), x, B()) ==> x == C()) && (ChildOf(l, false, Flags(), x, G()) ==> x == B()) {
      ChildrenAre(x, B());
      ChildrenAre(x, G());
    }
    SkipsParent(p, l, Flags(), 5, C(), B(), G());
    ParentsNeededIff(p, l, Flags(), 5);
  }

  lemma {:induction false} SkipsParent(p: PlanIr, mgs: seq<seq<MgIr>>, bounded: set<MgIr>, loops: nat, c: MgIr, b: MgIr, g: MgIr)
    requires loops <= |p.ops| == |p.iter| < |mgs|
    requires c.Valid() && b.Valid() && c.Depth() == b.Depth()
    requires ReadBy(p, mgs, c, loops) && !ReadBy(p, mgs, b, loops) && !ReadBy(p, mgs, g, loops)
    requires ChildOf(mgs, p.induced, bounded, c, b) && ChildOf(mgs, p.induced, bounded, b, g)
    requires forall x :: ChildOf(mgs, p.induced, bounded, x, b) ==> x == c
    requires forall x :: ChildOf(mgs, p.induced, bounded, x, g) ==> x == b
    ensures Skipped(p, mgs, bounded, loops, c, b, g) && Needed(p, mgs, bounded, loops, b)
  {
    hide ReadBy, MgParent;
  }
}
