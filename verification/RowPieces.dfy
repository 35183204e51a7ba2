/** How many local ranges each row is cut into, when a range adds the same whatever its length. */
module RowPieces {
  import opened Arithmetic
  import opened EdgeRanges

  function Pieces(chunk: nat, lo: nat, hi: nat): (n: nat)
    requires chunk > 0 && lo <= hi
    decreases hi - lo
  {
    if lo == hi then 0 else 1 + Pieces(chunk, FirstEnd(chunk, lo, hi), hi)
  }

  lemma {:induction false} OnePiece(chunk: nat, lo: nat, hi: nat)
    requires chunk > 0 && lo < hi
    ensures Pieces(chunk, lo, hi) > 0 && (Pieces(chunk, lo, hi) == 1 <==> hi - lo <= chunk)
  {
  }

  /** The ranges cut from a row, and whether the call of get_send that enters the next row
      still looks at its first edge. */
  datatype Walk = Walk(pieces: nat, check: bool)

  /** The rest of row v from position lo on. */
  function RowWalk(k: Config, v: nat, lo: nat, check: bool): Walk
    requires k.mpiChunk > 0 && k.ompChunk > 0 && v + 1 < |k.c.off| && lo < k.c.off[v + 1]
    decreases k.c.off[v + 1] - lo
  {
    var hi := k.c.off[v + 1];
    if check && Worthless(k.c, k.skip, Server(v, lo, hi)) then
      Walk(0, false)
    else if hi > lo + k.mpiChunk then
      var rest := RowWalk(k, v, lo + k.mpiChunk, true);
      Walk(Pieces(k.ompChunk, lo, lo + k.mpiChunk) + rest.pieces, rest.check)
    else
      Walk(Pieces(k.ompChunk, lo, hi), true)
  }

  /** Whether the first edge of row v is looked at. */
  ghost function Checked(k: Config, v: nat): bool
    requires k.Valid() && v <= k.c.Vertices()
  {
    v == 0 || RowWalk(k, v - 1, k.c.off[v - 1], Checked(k, v - 1)).check
  }

  /** The number of local ranges that row v is cut into. */
  ghost function PiecesOf(k: Config, v: nat): nat
    requires k.Valid() && v < k.c.Vertices()
  {
    RowWalk(k, v, k.c.off[v], Checked(k, v)).pieces
  }

  /** Over the rows below v. */
  ghost function PiecesSum(k: Config, e: nat -> int, v: nat): int
    requires k.Valid() && v <= k.c.Vertices()
  {
    if v == 0 then 0 else PiecesSum(k, e, v - 1) + PiecesOf(k, v - 1) * e(v - 1)
  }

  /** A range of v adds e(v), however long it is. */
  ghost predicate PerRange(k: Config, e: nat -> int)
    requires k.c.Valid()
  {
    forall v: nat, lo: nat, hi: nat {:trigger k.work(v, lo, hi)} ::
      v < k.c.Vertices() && k.c.off[v] <= lo < hi <= k.c.off[v + 1] ==> k.work(v, lo, hi) == e(v)
  }

  lemma {:induction false} BothTimes(a: nat, b: nat, e: int)
    ensures (a + b) * e == a * e + b * e
  {
  }

  lemma {:induction false} TaskCounts(k: Config, e: nat -> int, v: nat, lo: nat, hi: nat)
    requires k.Valid() && PerRange(k, e) && v < k.c.Vertices() && k.c.off[v] <= lo <= hi <= k.c.off[v + 1]
    ensures TaskSum(k, Range(v, lo, hi)) == Pieces(k.ompChunk, lo, hi) * e(v)
    decreases hi - lo
  {
    hide Csr.Valid;
    if lo < hi {
      var mid := FirstEnd(k.ompChunk, lo, hi);
      TaskCounts(k, e, v, mid, hi);
      OneMore(Pieces(k.ompChunk, mid, hi), e(v));
    }
  }

  /** The server at the beginning of a row. */
  function AtRow(c: Csr, v: nat): Server
    requires v + 1 < |c.off|
  {
    Server(v, c.off[v], c.off[v + 1])
  }

  /** What a call that hands out from s, and all later calls, hand out. */
  ghost function HandOutSum(k: Config, s: Server): int
    requires k.Valid() && ServerOk(k.c, s)
  {
    HandOutOk(k.c, k.mpiChunk, s);
    var (s', t) := HandOut(k.c, k.mpiChunk, s);
    TaskSum(k, t) + ServerSum(k, s')
  }

  /** Everything from row v on. */
  ghost function RowsSum(k: Config, v: nat, check: bool): int
    requires k.Valid() && v <= k.c.Vertices()
  {
    if v == k.c.Vertices() then 0
    else if check then ServerSum(k, AtRow(k.c, v))
    else HandOutSum(k, AtRow(k.c, v))
  }

  lemma {:induction false} DoneSum(k: Config, s: Server)
    requires k.Valid() && ServerOk(k.c, s) && s.cur == k.c.Vertices()
    ensures ServerSum(k, s) == 0 && HandOutSum(k, s) == 0
  {
    hide Csr.Valid;
    GetSendOk(k.c, k.skip, k.mpiChunk, s);
  }

  lemma {:induction false} NextRow(k: Config, s: Server)
    requires k.Valid() && ServerOk(k.c, s) && s.cur < k.c.Vertices()
    ensures ServerOk(k.c, NextCur(k.c, s))
    ensures ServerSum(k, NextCur(k.c, s)) == RowsSum(k, s.cur + 1, true)
    ensures HandOutSum(k, NextCur(k.c, s)) == RowsSum(k, s.cur + 1, false)
  {
    hide ServerSum, HandOutSum;
    NextCurOk(k.c, s);
    if s.cur + 1 == k.c.Vertices() {
      DoneSum(k, NextCur(k.c, s));
    }
  }

  /** A call that skips the rest of the row hands out from the next one. */
  lemma {:induction false} SkipSum(k: Config, s: Server)
    requires k.Valid() && ServerOk(k.c, s) && Worthless(k.c, k.skip, s)
    ensures ServerSum(k, s) == RowsSum(k, s.cur + 1, false)
  {
    hide Csr.Valid, Csr.EdgeOf, HandOut, TaskSum;
    NextRow(k, s);
    GetSendConserves(k, s);
    HandOutOk(k.c, k.mpiChunk, NextCur(k.c, s));
  }

  lemma {:induction false} StaySum(k: Config, s: Server)
    requires k.Valid() && ServerOk(k.c, s) && !Worthless(k.c, k.skip, s)
    ensures ServerSum(k, s) == HandOutSum(k, s)
  {
    hide Csr.Valid, Csr.EdgeOf, HandOut, TaskSum;
    GetSendConserves(k, s);
  }

  lemma {:induction false} RowServed(k: Config, e: nat -> int, v: nat, lo: nat, check: bool)
    requires k.Valid() && PerRange(k, e) && v < k.c.Vertices() && k.c.off[v] <= lo < k.c.off[v + 1]
    ensures var s, w := Server(v, lo, k.c.off[v + 1]), RowWalk(k, v, lo, check);
      && ServerOk(k.c, s)
      && (if check then ServerSum(k, s) else HandOutSum(k, s)) == w.pieces * e(v) + RowsSum(k, v + 1, w.check)
    decreases k.c.off[v + 1] - lo, check
  {
    hide Csr.Valid, Csr.EdgeOf, PerRange, Pieces, TaskSum, ServerSum, RowsSum, Worthless;
    var s, w := Server(v, lo, k.c.off[v + 1]), RowWalk(k, v, lo, check);
    assert ServerOk(k.c, s);
    if check && Worthless(k.c, k.skip, s) {
      SkipSum(k, s);
    } else if check {
      StaySum(k, s);
      RowServed(k, e, v, lo, false);
    } else if s.hi > lo + k.mpiChunk {
      RowServed(k, e, v, lo + k.mpiChunk, true);
      TaskCounts(k, e, v, lo, lo + k.mpiChunk);
      BothTimes(Pieces(k.ompChunk, lo, lo + k.mpiChunk), RowWalk(k, v, lo + k.mpiChunk, true).pieces, e(v));
    } else {
      TaskCounts(k, e, v, lo, s.hi);
      NextRow(k, s);
    }
  }

  lemma {:induction false} RowsServed(k: Config, e: nat -> int, v: nat)
    requires k.Valid() && PerRange(k, e) && v <= k.c.Vertices()
    ensures RowsSum(k, v, Checked(k, v)) + PiecesSum(k, e, v) == PiecesSum(k, e, k.c.Vertices())
    decreases k.c.Vertices() - v
  {
    hide ServerSum, HandOutSum, RowWalk, PerRange;
    if v < k.c.Vertices() {
      RowServed(k, e, v, k.c.off[v], Checked(k, v));
      RowsServed(k, e, v + 1);
    }
  }

  /** Work that ignores the length of a range is done once per piece. */
  lemma {:induction false} EveryPieceOnce(k: Config, e: nat -> int)
    requires k.Valid() && PerRange(k, e)
    ensures ServerOk(k.c, StartServer(k.c)) && ServerSum(k, StartServer(k.c)) == PiecesSum(k, e, k.c.Vertices())
  {
    hide ServerSum, PerRange;
    StartServerOk(k.c);
    RowsServed(k, e, 0);
    if k.c.Vertices() == 0 {
      DoneSum(k, StartServer(k.c));
    }
  }

  // ----- rows that stay whole -----

  /** Row v reaches the threads in one piece. */
  predicate RowWhole(k: Config, v: nat)
    requires v + 1 < |k.c.off| && k.c.off[v] <= k.c.off[v + 1] <= |k.c.edge|
  {
    var lo, len := k.c.off[v], k.c.off[v + 1] - k.c.off[v];
    && (len <= k.ompChunk || k.mpiChunk <= k.ompChunk)
    && (len <= k.mpiChunk || (k.skip && k.c.edge[lo + k.mpiChunk] >= v))
  }

  /** A row whose first edge is not skipped is cut into one piece exactly if it is whole. */
  lemma {:induction false} WholeIsOne(k: Config, v: nat)
    requires k.Valid() && v < k.c.Vertices() && (k.skip ==> k.c.edge[k.c.off[v]] < v)
    ensures k.c.off[v] < k.c.off[v + 1] <= |k.c.edge| && PiecesOf(k, v) > 0 && (PiecesOf(k, v) == 1 <==> RowWhole(k, v))
  {
    hide Pieces, Checked;
    OffInside(k.c, v);
    var lo, hi := k.c.off[v], k.c.off[v + 1];
    if hi > lo + k.mpiChunk {
      OnePiece(k.ompChunk, lo, lo + k.mpiChunk);
      RestPieces(k, v, lo + k.mpiChunk);
    } else {
      OnePiece(k.ompChunk, lo, hi);
    }
  }

  lemma {:induction false} RestPieces(k: Config, v: nat, lo: nat)
    requires k.Valid() && v < k.c.Vertices() && k.c.off[v] <= lo < k.c.off[v + 1] <= |k.c.edge|
    ensures RowWalk(k, v, lo, true).pieces == 0 <==> k.skip && k.c.edge[lo] >= v
  {
    hide Pieces, Csr.Valid;
    OnePiece(k.ompChunk, lo, if k.c.off[v + 1] > lo + k.mpiChunk then lo + k.mpiChunk else k.c.off[v + 1]);
  }

  /** When every row that adds something is cut into at least one piece, the sum is right
      exactly if each of them is cut into one. */
  lemma {:induction false} OnceEach(k: Config, e: nat -> int, v: nat)
    requires k.Valid() && v <= k.c.Vertices()
    requires forall u :: 0 <= u < v ==> e(u) >= 0 && (e(u) > 0 ==> PiecesOf(k, u) > 0)
    ensures PiecesSum(k, e, v) >= Sum(e, 0, v)
    ensures PiecesSum(k, e, v) == Sum(e, 0, v) <==> forall u :: 0 <= u < v && e(u) > 0 ==> PiecesOf(k, u) == 1
  {
    hide PiecesOf, Csr.Valid;
    if v > 0 {
      OnceEach(k, e, v - 1);
      AtLeastOnce(PiecesOf(k, v - 1), e(v - 1));
    }
  }

  lemma {:induction false} AtLeastOnce(n: nat, e: int)
    requires e >= 0 && (e > 0 ==> n > 0)
    ensures n * e >= e && (n * e == e <==> e == 0 || n == 1)
  {
    if e > 0 && n > 1 {
      assert n * e == e + (n - 1) * e;
    }
  }
}
