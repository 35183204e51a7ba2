/** get_send: the server walks over all edges and hands them out range by range. */
module EdgeRanges {
  /** Compressed rows: the edges of v are edge[off[v]..off[v + 1]). */
  datatype Csr = Csr(off: seq<nat>, edge: seq<nat>) {
    /** Every vertex has an edge, and its edges ascend. */
    ghost predicate Valid() {
      && |off| > 0 && off[0] == 0 && off[|off| - 1] == |edge|
      && (forall u, v :: 0 <= u < v < |off| ==> off[u] < off[v])
      && (forall v: nat, i: nat, j: nat :: EdgeOf(v, i) && EdgeOf(v, j) && i < j ==> edge[i] < edge[j])
    }

    ghost predicate EdgeOf(v: nat, e: nat) {
      v + 1 < |off| && off[v] <= e < off[v + 1] && e < |edge|
    }

    function Vertices(): nat
      requires |off| > 0
    {
      |off| - 1
    }
  }

  /** An order to stop, or edges lo..hi of vertex v; an empty range means nothing to do yet. */
  datatype Task = Stop | Range(v: nat, lo: nat, hi: nat) {
    predicate Empty() {
      Range? && lo == hi
    }
  }

  datatype Server = Server(cur: nat, lo: nat, hi: nat)

  /** What working on edges lo..hi of vertex v adds, as work(v, lo, hi). */
  type Work = (nat, nat, nat) -> int

  /** What does not change during a run. */
  datatype Config = Config(c: Csr, skip: bool, mpiChunk: nat, ompChunk: nat, work: Work) {
    ghost predicate Valid() {
      c.Valid() && mpiChunk > 0 && ompChunk > 0
    }
  }

  ghost predicate ServerOk(c: Csr, s: Server)
    requires c.Valid()
  {
    s.cur <= c.Vertices() && (s.cur < c.Vertices() ==> c.off[s.cur] <= s.lo < s.hi == c.off[s.cur + 1])
  }

  ghost predicate TaskOk(c: Csr, t: Task)
    requires c.Valid()
  {
    t.Range? ==> t.lo == t.hi || (t.v < c.Vertices() && c.off[t.v] <= t.lo < t.hi <= c.off[t.v + 1])
  }

  lemma {:induction false} OffInside(c: Csr, v: nat)
    requires c.Valid() && v <= c.Vertices()
    ensures c.off[v] <= |c.edge|
    ensures v < c.Vertices() ==> c.off[v] < c.off[v + 1] <= |c.edge|
  {
    assert v < c.Vertices() ==> c.off[v] < c.off[|c.off| - 1];
    assert v + 1 < c.Vertices() ==> c.off[v + 1] < c.off[|c.off| - 1];
  }

  // ----- what is still to be added -----

  /** What a thread adds for the range it was given. */
  ghost function RangeSum(k: Config, t: Task): int {
    match t case Stop => 0 case Range(v, lo, hi) => if lo < hi then k.work(v, lo, hi) else 0
  }

  /** Where the first local piece of lo..hi ends. */
  function FirstEnd(chunk: nat, lo: nat, hi: nat): (mid: nat)
    requires lo <= hi
    ensures lo <= mid <= hi && (chunk > 0 && lo < hi ==> lo < mid)
  {
    if lo + chunk < hi then lo + chunk else hi
  }

  /** What the threads of a node will add for a local range, piece by piece. */
  ghost function TaskSum(k: Config, t: Task): int
    decreases match t case Stop => 0 case Range(_, lo, hi) => if lo <= hi then hi - lo else 0
  {
    match t
    case Stop => 0
    case Range(v, lo, hi) =>
      if lo >= hi || k.ompChunk == 0 then
        0
      else
        var mid := FirstEnd(k.ompChunk, lo, hi);
        RangeSum(k, Range(v, lo, mid)) + TaskSum(k, Range(v, mid, hi))
  }

  function NextCur(c: Csr, s: Server): Server
    requires |c.off| > 0 && s.cur < c.Vertices()
  {
    if s.cur + 1 < c.Vertices() then Server(s.cur + 1, c.off[s.cur + 1], c.off[s.cur + 2])
    else Server(s.cur + 1, s.lo, s.hi)
  }

  /** The rest of the current vertex is worthless: the first restriction asks for a
      smaller second vertex, and edges ascend. */
  predicate Worthless(c: Csr, skip: bool, s: Server)
    requires |c.off| > 0
  {
    s.cur < c.Vertices() && skip && s.lo < |c.edge| && c.edge[s.lo] >= s.cur
  }

  /** At most `chunk` edges of the current vertex, or a stop order behind the last one. */
  function HandOut(c: Csr, chunk: nat, s: Server): (Server, Task)
    requires |c.off| > 0
  {
    if s.cur >= c.Vertices() then
      (s, Stop)
    else if s.hi > s.lo + chunk then
      (s.(lo := s.lo + chunk), Range(s.cur, s.lo, s.lo + chunk))
    else
      (NextCur(c, s), Range(s.cur, s.lo, s.hi))
  }

  function GetSend(c: Csr, skip: bool, chunk: nat, s: Server): (Server, Task)
    requires |c.off| > 0
  {
    HandOut(c, chunk, if Worthless(c, skip, s) then NextCur(c, s) else s)
  }

  lemma {:induction false} NextCurOk(c: Csr, s: Server)
    requires c.Valid() && ServerOk(c, s) && s.cur < c.Vertices()
    ensures ServerOk(c, NextCur(c, s))
  {
    OffInside(c, s.cur);
    OffInside(c, s.cur + 1);
  }

  lemma {:induction false} HandOutOk(c: Csr, chunk: nat, s: Server)
    requires c.Valid() && ServerOk(c, s) && chunk > 0
    ensures var (s', t) := HandOut(c, chunk, s);
      && ServerOk(c, s') && TaskOk(c, t) && !t.Empty()
      && (t.Stop? <==> s.cur == c.Vertices()) && (t.Stop? ==> s' == s)
      && (!t.Stop? ==> s.cur < s'.cur || (s.cur == s'.cur && s.lo < s'.lo && s.hi == s'.hi))
  {
    hide Csr.EdgeOf;
    if s.cur < c.Vertices() {
      NextCurOk(c, s);
    }
  }

  /** A range of the current vertex or a later one; a stop order means that nothing is
      left, now and later. */
  lemma {:induction false} GetSendOk(c: Csr, skip: bool, chunk: nat, s: Server)
    requires c.Valid() && ServerOk(c, s) && chunk > 0
    ensures var (s', t) := GetSend(c, skip, chunk, s);
      && ServerOk(c, s') && TaskOk(c, t) && !t.Empty()
      && (t.Stop? ==> s'.cur == c.Vertices())
      && (s.cur == c.Vertices() ==> t.Stop? && s'.cur == c.Vertices())
      && (!t.Stop? ==> s.cur < s'.cur || (s.cur == s'.cur && s.lo < s'.lo && s.hi == s'.hi))
  {
    hide HandOut, Csr.EdgeOf;
    if Worthless(c, skip, s) {
      NextCurOk(c, s);
      HandOutOk(c, chunk, NextCur(c, s));
    } else {
      HandOutOk(c, chunk, s);
    }
  }

  /** Everything that later calls of get_send hand out, until the first stop order. */
  ghost function ServerSum(k: Config, s: Server): int
    requires k.Valid() && ServerOk(k.c, s)
    decreases k.c.Vertices() - s.cur, s.hi - s.lo
  {
    GetSendOk(k.c, k.skip, k.mpiChunk, s);
    var (s', t) := GetSend(k.c, k.skip, k.mpiChunk, s);
    if t.Stop? then 0 else TaskSum(k, t) + ServerSum(k, s')
  }

  /** Handing out moves work from the server to the task, and none gets lost. */
  lemma {:induction false} GetSendConserves(k: Config, s: Server)
    requires k.Valid() && ServerOk(k.c, s)
    ensures var (s', t) := GetSend(k.c, k.skip, k.mpiChunk, s);
      && ServerOk(k.c, s') && TaskOk(k.c, t) && !t.Empty()
      && ServerSum(k, s) == TaskSum(k, t) + ServerSum(k, s')
      && (t.Stop? ==> s'.cur == k.c.Vertices())
      && (s.cur == k.c.Vertices() ==> s'.cur == k.c.Vertices())
  {
    hide Csr.EdgeOf, Csr.Valid, GetSend, TaskOk;
    GetSendOk(k.c, k.skip, k.mpiChunk, s);
    var (s', t) := GetSend(k.c, k.skip, k.mpiChunk, s);
    if t.Stop? {
      GetSendOk(k.c, k.skip, k.mpiChunk, s');
    }
  }

  function StartServer(c: Csr): Server
    requires |c.off| > 0
  {
    if c.Vertices() > 0 then Server(0, c.off[0], c.off[1]) else Server(0, 0, 0)
  }

  lemma {:induction false} StartServerOk(c: Csr)
    requires c.Valid()
    ensures ServerOk(c, StartServer(c))
  {
  }

  // ----- work that adds up over edges -----

  /** A weight per edge index; its sum over a range. */
  type Weight = nat -> int

  ghost function Sum(w: Weight, lo: nat, hi: nat): int
    requires lo <= hi
  {
    if lo == hi then 0 else Sum(w, lo, hi - 1) + w(hi - 1)
  }

  lemma {:induction false} SumSplits(w: Weight, lo: nat, mid: nat, hi: nat)
    requires lo <= mid <= hi
    ensures Sum(w, lo, hi) == Sum(w, lo, mid) + Sum(w, mid, hi)
  {
    if mid < hi {
      SumSplits(w, lo, mid, hi - 1);
    }
  }

  lemma {:induction false} SumZero(w: Weight, lo: nat, hi: nat)
    requires lo <= hi && forall e: nat :: lo <= e < hi ==> w(e) == 0
    ensures Sum(w, lo, hi) == 0
  {
    if lo < hi {
      SumZero(w, lo, hi - 1);
    }
  }

  /** Working on a range adds the weights of its edges. */
  ghost predicate PerEdge(k: Config, w: Weight)
    requires k.c.Valid()
  {
    forall v: nat, lo: nat, hi: nat {:trigger k.work(v, lo, hi)} ::
      v < k.c.Vertices() && k.c.off[v] <= lo < hi <= k.c.off[v + 1] ==> k.work(v, lo, hi) == Sum(w, lo, hi)
  }

  /** Edges that the first restriction rules out weigh nothing. */
  ghost predicate Harmless(c: Csr, skip: bool, w: Weight)
    requires c.Valid()
  {
    skip ==> forall v: nat, e: nat :: c.EdgeOf(v, e) && c.edge[e] >= v ==> w(e) == 0
  }

  /** The weight of all edges not handed out yet. */
  ghost function WeightLeft(c: Csr, w: Weight, s: Server): int
    requires c.Valid() && ServerOk(c, s)
  {
    OffInside(c, s.cur);
    if s.cur < c.Vertices() then Sum(w, s.lo, |c.edge|) else 0
  }

  lemma {:induction false} TaskWeighs(k: Config, w: Weight, v: nat, lo: nat, hi: nat)
    requires k.Valid() && PerEdge(k, w) && v < k.c.Vertices() && k.c.off[v] <= lo <= hi <= k.c.off[v + 1]
    ensures TaskSum(k, Range(v, lo, hi)) == Sum(w, lo, hi)
    decreases hi - lo
  {
    hide Csr.Valid;
    if lo < hi {
      var mid := FirstEnd(k.ompChunk, lo, hi);
      TaskWeighs(k, w, v, mid, hi);
      SumSplits(w, lo, mid, hi);
    }
  }

  lemma {:induction false} NextCurWeighs(c: Csr, w: Weight, s: Server)
    requires c.Valid() && ServerOk(c, s) && s.cur < c.Vertices()
    ensures ServerOk(c, NextCur(c, s))
    ensures WeightLeft(c, w, s) == Sum(w, s.lo, s.hi) + WeightLeft(c, w, NextCur(c, s))
  {
    OffInside(c, s.cur);
    OffInside(c, s.cur + 1);
    SumSplits(w, s.lo, s.hi, |c.edge|);
  }

  lemma {:induction false} SkipLosesNothing(c: Csr, skip: bool, w: Weight, s: Server)
    requires c.Valid() && ServerOk(c, s) && Harmless(c, skip, w) && Worthless(c, skip, s)
    ensures ServerOk(c, NextCur(c, s)) && WeightLeft(c, w, NextCur(c, s)) == WeightLeft(c, w, s)
  {
    OffInside(c, s.cur);
    forall e: nat | s.lo <= e < s.hi ensures w(e) == 0 {
      assert c.EdgeOf(s.cur, s.lo) && c.EdgeOf(s.cur, e);
    }
    SumZero(w, s.lo, s.hi);
    NextCurWeighs(c, w, s);
  }

  lemma {:induction false} HandOutWeighs(k: Config, w: Weight, s: Server)
    requires k.Valid() && PerEdge(k, w) && ServerOk(k.c, s)
    ensures var (s', t) := HandOut(k.c, k.mpiChunk, s);
      ServerOk(k.c, s') && WeightLeft(k.c, w, s) == TaskSum(k, t) + WeightLeft(k.c, w, s')
  {
    hide Sum, Csr.EdgeOf, PerEdge, TaskSum;
    HandOutOk(k.c, k.mpiChunk, s);
    if s.cur < k.c.Vertices() {
      OffInside(k.c, s.cur);
      var (s', t) := HandOut(k.c, k.mpiChunk, s);
      TaskWeighs(k, w, s.cur, t.lo, t.hi);
      if s.hi > s.lo + k.mpiChunk {
        SumSplits(w, s.lo, s.lo + k.mpiChunk, |k.c.edge|);
      } else {
        NextCurWeighs(k.c, w, s);
      }
    } else {
      assert TaskSum(k, Stop) == 0 by { StopSum(k); }
    }
  }

  lemma {:induction false} StopSum(k: Config)
    ensures TaskSum(k, Stop) == 0
  {
  }

  /** Additive work: whatever the chunk sizes, the server hands out every edge's weight once. */
  lemma {:induction false} ServerWeighs(k: Config, w: Weight, s: Server)
    requires k.Valid() && PerEdge(k, w) && Harmless(k.c, k.skip, w) && ServerOk(k.c, s)
    ensures ServerSum(k, s) == WeightLeft(k.c, w, s)
    decreases k.c.Vertices() - s.cur, s.hi - s.lo
  {
    hide PerEdge, Harmless, Csr.EdgeOf, Csr.Valid, HandOut, TaskSum, TaskOk, WeightLeft;
    GetSendOk(k.c, k.skip, k.mpiChunk, s);
    if Worthless(k.c, k.skip, s) {
      SkipLosesNothing(k.c, k.skip, w, s);
      HandOutWeighs(k, w, NextCur(k.c, s));
    } else {
      HandOutWeighs(k, w, s);
    }
    var (s', t) := GetSend(k.c, k.skip, k.mpiChunk, s);
    if t.Stop? {
      StopSum(k);
      NothingLeft(k.c, w, s');
    } else {
      ServerWeighs(k, w, s');
    }
  }

  lemma {:induction false} NothingLeft(c: Csr, w: Weight, s: Server)
    requires c.Valid() && ServerOk(c, s) && s.cur == c.Vertices()
    ensures WeightLeft(c, w, s) == 0
  {
  }

  lemma {:induction false} EveryEdgeOnce(k: Config, w: Weight)
    requires k.Valid() && PerEdge(k, w) && Harmless(k.c, k.skip, w)
    ensures ServerOk(k.c, StartServer(k.c)) && ServerSum(k, StartServer(k.c)) == Sum(w, 0, |k.c.edge|)
  {
    hide PerEdge, Harmless, Csr.EdgeOf;
    StartServerOk(k.c);
    ServerWeighs(k, w, StartServer(k.c));
  }
}
