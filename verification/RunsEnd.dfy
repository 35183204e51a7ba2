/** Every run of the distributor ends, with every node told the result. */
module RunsEnd {
  import opened EdgeRanges
  import opened Distributor

  // ----- what is left to do -----

  ghost function Len(t: Task): nat {
    if t.Range? && t.lo <= t.hi then t.hi - t.lo else 0
  }

  /** Edges the server has not handed out. */
  ghost function EdgesLeft(c: Csr, s: Server): nat
    requires c.Valid() && ServerOk(c, s)
  {
    OffInside(c, s.cur);
    if s.cur < c.Vertices() then |c.edge| - s.lo else 0
  }

  ghost function ThreadLoad(t: Thread): nat {
    match t case Free(_) => 4 case Queued(_) => 3 case Busy(_, _) => 5 case Told(_) => 2 case Gone => 0
  }

  ghost function ThreadLoads(ts: seq<Thread>): (r: seq<int>)
    ensures |r| == |ts| && forall i :: 0 <= i < |r| ==> r[i] >= 0
  {
    seq(|ts|, i requires 0 <= i < |ts| => ThreadLoad(ts[i]))
  }

  ghost function DownLoad(down: seq<Down>): nat {
    |down| + if |down| > 0 && down[0].Overwork? then 10 * Len(down[0].task) else 0
  }

  ghost function NodeLoad(d: Node): int {
    10 * Len(d.local) + Total(ThreadLoads(d.threads)) + 2 * |d.up| + DownLoad(d.down) + if d.idleCnt == -1 then 0 else 3
  }

  ghost function NodeLoads(nodes: seq<Node>): (r: seq<int>)
    ensures |r| == |nodes|
  {
    seq(|nodes|, i requires 0 <= i < |nodes| => NodeLoad(nodes[i]))
  }

  /** Work left: edges not dispatched, threads not gone, messages under way, reports due. */
  ghost function Potential(k: Config, s: State): int
    requires k.Valid() && ServerOk(k.c, s.server)
  {
    10 * EdgesLeft(k.c, s.server) + Total(NodeLoads(s.nodes)) + if s.finished then 0 else 2 * |s.nodes|
  }

  lemma {:induction false} TotalAtLeast(xs: seq<int>)
    requires forall i :: 0 <= i < |xs| ==> xs[i] >= 0
    ensures Total(xs) >= 0
  {
    if |xs| > 0 {
      TotalAtLeast(xs[..|xs| - 1]);
    }
  }

  lemma {:induction false} PotentialIsNat(k: Config, s: State)
    requires k.Valid() && ServerOk(k.c, s.server)
    ensures Potential(k, s) >= 0
  {
    hide EdgesLeft, DownLoad, Len, Total;
    forall i | 0 <= i < |s.nodes| ensures NodeLoads(s.nodes)[i] >= 0 {
      TotalAtLeast(ThreadLoads(s.nodes[i].threads));
    }
    TotalAtLeast(NodeLoads(s.nodes));
  }

  // ----- one node at a time -----

  lemma {:induction false} ThreadDrop(d: Node, t: nat, x: Thread)
    requires t < |d.threads|
    ensures Total(ThreadLoads(SetThread(d, t, x).threads))
      == Total(ThreadLoads(d.threads)) - ThreadLoad(d.threads[t]) + ThreadLoad(x)
  {
    hide ThreadLoad;
    TotalUpdate(ThreadLoads(d.threads), t, ThreadLoad(x));
    assert ThreadLoads(d.threads[t := x]) == ThreadLoads(d.threads)[t := ThreadLoad(x) as int];
  }

  lemma {:induction false} NodeDrop(k: Config, s: State, server: Server, n: nat, d: Node, s': State)
    requires k.Valid() && ServerOk(k.c, s.server) && ServerOk(k.c, server) && n < |s.nodes|
    requires NodeLoad(d) + 10 * EdgesLeft(k.c, server) < NodeLoad(s.nodes[n]) + 10 * EdgesLeft(k.c, s.server)
    requires s'.server == server && s'.nodes == s.nodes[n := d] && s'.finished == s.finished
    ensures Potential(k, s') < Potential(k, s)
  {
    hide EdgesLeft, NodeLoad, ServerOk, Csr.Valid;
    TotalUpdate(NodeLoads(s.nodes), n, NodeLoad(d));
    assert NodeLoads(s.nodes[n := d]) == NodeLoads(s.nodes)[n := NodeLoad(d)];
  }

  /** A handed-out range comes out of what the server had left. */
  lemma {:induction false} SendTakes(k: Config, s: Server)
    requires k.Valid() && ServerOk(k.c, s)
    ensures var (s', t) := GetSend(k.c, k.skip, k.mpiChunk, s);
      ServerOk(k.c, s') && EdgesLeft(k.c, s') + Len(t) <= EdgesLeft(k.c, s)
  {
    hide HandOut, Csr.EdgeOf, Csr.Valid;
    if Worthless(k.c, k.skip, s) {
      NextLeft(k.c, s);
      HandOutTakes(k, NextCur(k.c, s));
    } else {
      HandOutTakes(k, s);
    }
  }

  lemma {:induction false} NextLeft(c: Csr, s: Server)
    requires c.Valid() && ServerOk(c, s) && s.cur < c.Vertices()
    ensures ServerOk(c, NextCur(c, s)) && EdgesLeft(c, NextCur(c, s)) + (s.hi - s.lo) == EdgesLeft(c, s)
  {
    OffInside(c, s.cur);
    OffInside(c, s.cur + 1);
  }

  lemma {:induction false} HandOutTakes(k: Config, s: Server)
    requires k.Valid() && ServerOk(k.c, s)
    ensures var (s', t) := HandOut(k.c, k.mpiChunk, s);
      ServerOk(k.c, s') && EdgesLeft(k.c, s') + Len(t) <= EdgesLeft(k.c, s)
  {
    hide Csr.EdgeOf;
    if s.cur < k.c.Vertices() {
      OffInside(k.c, s.cur);
      NextLeft(k.c, s);
    }
  }

  lemma {:induction false} ThreadMoves(k: Config, s: State, n: nat, t: nat, x: Thread, d: Node, s': State)
    requires k.Valid() && ServerOk(k.c, s.server) && n < |s.nodes| && t < |s.nodes[n].threads|
    requires ThreadLoad(x) < ThreadLoad(s.nodes[n].threads[t]) && s.nodes[n].idleCnt >= 0 && d.idleCnt >= 0
    requires d == SetThread(s.nodes[n], t, x).(idleq := d.idleq, nodeAns := d.nodeAns, idleCnt := d.idleCnt)
    requires s' == s.(nodes := s.nodes[n := d])
    ensures Potential(k, s') < Potential(k, s)
  {
    hide EdgesLeft, ThreadLoad, DownLoad, Len, Total, Csr.Valid, ServerOk, ThreadLoads;
    ThreadDrop(s.nodes[n], t, x);
    assert d.threads == SetThread(s.nodes[n], t, x).threads;
    NodeDrop(k, s, s.server, n, d, s');
  }

  lemma {:induction false} CountIsNat(k: Config, s: State, n: nat, t: nat)
    requires k.Valid() && Running(k, s) && n < |s.nodes| && t < |s.nodes[n].threads| && !s.nodes[n].threads[t].Gone?
    ensures s.nodes[n].idleCnt >= 0 && QueueOk(s.nodes[n]) && ServerOk(k.c, s.server)
  {
    hide Csr.Valid, ServerOk, QueueOk, ThreadsOk, ChannelsOk, StopOk, TasksOk;
    assert NodeOk(k.c, s.server, s.nodes[n], n == 0);
    SomeLeft(s.nodes[n].threads, t);
  }

  lemma {:induction false} ServeDrops(k: Config, s: State, n: nat)
    requires k.Valid() && Running(k, s) && Enabled(k, s, Dispatch(n)) && s.nodes[n].local.Range?
    ensures ServerOk(k.c, s.server) && ServerOk(k.c, Apply(k, s, Dispatch(n)).server)
    ensures Potential(k, Apply(k, s, Dispatch(n))) < Potential(k, s)
  {
    hide EdgesLeft, ThreadLoad, Total, Csr.Valid, ServerOk, ThreadLoads, QueueOk, CountOk, ThreadsOk, StopOk,
      GetSend, Csr.EdgeOf, Potential;
    RunningServer(k, s);
    var d := s.nodes[n];
    assert NodeOk(k.c, s.server, d, n == 0);
    QueueHead(d);
    RangeInOrder(k.c, d.local);
    var d' := ServeHead(d, k.ompChunk);
    HeadLoad(d, k.ompChunk);
    if !d'.local.Empty() {
      NodeDrop(k, s, s.server, n, d', Apply(k, s, Dispatch(n)));
    } else if n == 0 {
      SendTakes(k, s.server);
      var (server, task) := GetSend(k.c, k.skip, k.mpiChunk, s.server);
      NodeDrop(k, s, server, n, d'.(local := task), Apply(k, s, Dispatch(n)));
    } else {
      NodeDrop(k, s, s.server, n, d'.(up := d'.up + [Idle]), Apply(k, s, Dispatch(n)));
    }
  }

  /** A served thread costs two, and each dispatched edge pays ten. */
  lemma {:induction false} HeadLoad(d: Node, chunk: nat)
    requires |d.idleq| > 0 && d.idleq[0] < |d.threads| && d.threads[d.idleq[0]].Queued?
    requires d.local.Range? && d.local.lo < d.local.hi && chunk > 0
    ensures var d' := ServeHead(d, chunk);
      NodeLoad(d') + 8 <= NodeLoad(d) && d'.up == d.up && d'.local.Range? && d'.local.hi == d.local.hi && d'.local.lo <= d'.local.hi
  {
    hide Total, ThreadLoads, DownLoad;
    var d', t := ServeHead(d, chunk), d.idleq[0];
    ThreadDrop(d, t, d'.threads[t]);
    assert d'.threads == SetThread(d, t, d'.threads[t]).threads;
  }

  lemma {:induction false} MessageDrops(k: Config, s: State, step: Step)
    requires k.Valid() && Running(k, s) && Enabled(k, s, step)
    requires step.SendReport? || step.TakeIdle? || step.TakeOverwork? || step.TakeReport?
    ensures ServerOk(k.c, s.server) && ServerOk(k.c, Apply(k, s, step).server)
    ensures Potential(k, Apply(k, s, step)) < Potential(k, s)
  {
    hide EdgesLeft, ThreadLoad, Total, Csr.Valid, ServerOk, ThreadLoads, QueueOk, CountOk, ThreadsOk, StopOk,
      TasksOk, GetSend, Csr.EdgeOf, Potential;
    RunningServer(k, s);
    var n := step.n;
    var d := s.nodes[n];
    assert NodeOk(k.c, s.server, d, n == 0);
    var s' := Apply(k, s, step);
    if step.TakeIdle? {
      SendTakes(k, s.server);
    }
    NodeDrop(k, s, s'.server, n, s'.nodes[n], s');
  }

  lemma {:induction false} FinishDrops(k: Config, s: State)
    requires k.Valid() && Running(k, s) && Enabled(k, s, Finish)
    ensures ServerOk(k.c, s.server) && Potential(k, Apply(k, s, Finish)) < Potential(k, s)
  {
    hide EdgesLeft, Csr.Valid, ServerOk, NodeOk, ThreadLoads;
    RunningServer(k, s);
    FinishHasAll(k, s);
    var s' := Apply(k, s, Finish);
    forall n | 0 <= n < |s.nodes| ensures NodeLoads(s'.nodes)[n] <= NodeLoads(s.nodes)[n] + 1 {
    }
    TotalMore(NodeLoads(s.nodes), NodeLoads(s'.nodes));
  }

  lemma {:induction false} TotalMore(xs: seq<int>, ys: seq<int>)
    requires |xs| == |ys| && forall i :: 0 <= i < |xs| ==> ys[i] <= xs[i] + 1
    ensures Total(ys) <= Total(xs) + |xs|
  {
    if |xs| > 0 {
      TotalMore(xs[..|xs| - 1], ys[..|ys| - 1]);
    }
  }

  lemma {:induction false} EndDrops(k: Config, s: State, n: nat)
    requires k.Valid() && Ended(s) && ServerOk(k.c, s.server) && Enabled(k, s, TakeEnd(n))
    ensures Potential(k, Apply(k, s, TakeEnd(n))) < Potential(k, s)
  {
    hide EdgesLeft, Csr.Valid, ServerOk, ThreadLoads, Potential, Total, Len;
    var s' := Apply(k, s, TakeEnd(n));
    NodeDrop(k, s, s.server, n, s'.nodes[n], s');
  }

  // ----- whole runs -----

  /** Every step uses some of the work up. */
  lemma {:induction false} StepDrops(k: Config, s: State, step: Step)
    requires k.Valid() && Accounted(k, s) && ServerOk(k.c, s.server) && Enabled(k, s, step)
    ensures ServerOk(k.c, Apply(k, s, step).server) && Potential(k, Apply(k, s, step)) < Potential(k, s)
  {
    hide Running, Value, Csr.Valid, ServerOk, Potential, Planned, Ended, QueueOk;
    match step
    case Ask(n, t) =>
      CountIsNat(k, s, n, t);
      ThreadMoves(k, s, n, t, Queued(s.nodes[n].threads[t].ans), AskNode(s.nodes[n], t), Apply(k, s, step));
    case Dispatch(n) =>
      if s.nodes[n].local.Stop? {
        StopDrops(k, s, n);
      } else {
        ServeDrops(k, s, n);
      }
    case Work(n, t) =>
      CountIsNat(k, s, n, t);
      var s' := Apply(k, s, step);
      ThreadMoves(k, s, n, t, s'.nodes[n].threads[t], s'.nodes[n], s');
    case Leave(n, t) =>
      CountIsNat(k, s, n, t);
      ThreadMoves(k, s, n, t, Gone, LeaveNode(s.nodes[n], t), Apply(k, s, step));
    case SendReport(n) => MessageDrops(k, s, step);
    case TakeIdle(n) => MessageDrops(k, s, step);
    case TakeOverwork(n) => MessageDrops(k, s, step);
    case TakeReport(n) => MessageDrops(k, s, step);
    case Finish => FinishDrops(k, s);
    case TakeEnd(n) => EndDrops(k, s, n);
  }

  lemma {:induction false} StopDrops(k: Config, s: State, n: nat)
    requires k.Valid() && Running(k, s) && Enabled(k, s, Dispatch(n)) && s.nodes[n].local.Stop?
    ensures ServerOk(k.c, s.server) && Potential(k, Apply(k, s, Dispatch(n))) < Potential(k, s)
  {
    hide Csr.Valid, ServerOk, Potential, CountOk, ThreadsOk, ChannelsOk, StopOk, TasksOk;
    var d := s.nodes[n];
    assert NodeOk(k.c, s.server, d, n == 0);
    QueueHead(d);
    CountIsNat(k, s, n, d.idleq[0]);
    ThreadMoves(k, s, n, d.idleq[0], Told(d.threads[d.idleq[0]].ans), StopHead(d), Apply(k, s, Dispatch(n)));
  }

  /** Along a run the work left shrinks by at least one per step. */
  lemma {:induction false} RunShrinks(k: Config, threads: seq<nat>, states: seq<State>, steps: seq<Step>, i: nat)
    requires k.Valid() && |threads| > 0 && forall n :: 0 <= n < |threads| ==> threads[n] > 0
    requires IsRun(k, states, steps) && states[0] == Start(k, threads) && i < |states|
    ensures ServerOk(k.c, states[0].server) && ServerOk(k.c, states[i].server)
    ensures i + Potential(k, states[i]) <= Potential(k, states[0])
    decreases i
  {
    hide Running, Value, Csr.Valid, ServerOk, Start, Enabled, Apply, Planned, Potential;
    EveryRunAccounts(k, threads, states, steps, 0);
    StartRuns(k, threads);
    if i > 0 {
      RunShrinks(k, threads, states, steps, i - 1);
      EveryRunAccounts(k, threads, states, steps, i - 1);
      StepDrops(k, states[i - 1], steps[i - 1]);
    }
  }

  lemma {:induction false} StartRuns(k: Config, threads: seq<nat>)
    requires k.Valid() && |threads| > 0 && forall n :: 0 <= n < |threads| ==> threads[n] > 0
    ensures ServerOk(k.c, Start(k, threads).server)
  {
    hide Csr.Valid, ServerOk, GetSend;
    StartHasAll(k, threads);
    RunningServer(k, Start(k, threads));
  }

  /** No run is longer than the work there is at the start. */
  lemma {:induction false} RunsAreFinite(k: Config, threads: seq<nat>, states: seq<State>, steps: seq<Step>)
    requires k.Valid() && |threads| > 0 && forall n :: 0 <= n < |threads| ==> threads[n] > 0
    requires IsRun(k, states, steps) && states[0] == Start(k, threads)
    ensures ServerOk(k.c, Start(k, threads).server) && |steps| <= Potential(k, Start(k, threads))
  {
    hide Csr.Valid, ServerOk, Start, Enabled, Apply, Potential;
    RunShrinks(k, threads, states, steps, |steps|);
    PotentialIsNat(k, states[|steps|]);
  }

  /** A run that cannot go on is over: the server and every other node have the result. */
  lemma {:induction false} StuckIsOver(k: Config, threads: seq<nat>, states: seq<State>, steps: seq<Step>)
    requires k.Valid() && |threads| > 0 && forall n :: 0 <= n < |threads| ==> threads[n] > 0
    requires IsRun(k, states, steps) && states[0] == Start(k, threads) && !CanMove(k, states[|steps|])
    ensures var s := states[|steps|];
      && s.finished && s.tot == Planned(k)
      && forall n :: 1 <= n < |s.nodes| ==> s.nodes[n].final && s.nodes[n].total == Planned(k)
  {
    hide Csr.Valid, Start, Running, Value, Planned, CanMove;
    EveryRunAccounts(k, threads, states, steps, |steps|);
    var s := states[|steps|];
    if !s.finished {
      NoDeadlock(k, s);
    } else {
      forall n: nat | 1 <= n < |s.nodes| ensures s.nodes[n].final {
        AllTold(k, s, n);
      }
    }
  }

  lemma {:induction false} AllTold(k: Config, s: State, n: nat)
    requires k.Valid() && Ended(s) && !CanMove(k, s) && 1 <= n < |s.nodes|
    ensures s.nodes[n].final
  {
    if !s.nodes[n].final {
      assert Enabled(k, s, TakeEnd(n));
    }
  }
}
