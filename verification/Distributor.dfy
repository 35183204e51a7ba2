/** runmajor and its threads as a state machine: the server hands out edge ranges over
    messages, every node passes them on to its threads, answers flow back. */
module Distributor {
  import opened EdgeRanges

  /** A thread's life: working on its own, queued for work, given a range, told to stop, gone. */
  datatype Thread =
    | Free(ans: int)
    | Queued(ans: int)
    | Busy(ans: int, task: Task)
    | Told(ans: int)
    | Gone

  datatype Up = Idle | Report(ans: int)
  datatype Down = Overwork(task: Task) | End(total: int)

  /** One node: its local range, its threads and their queue, and its two channels. */
  datatype Node = Node(local: Task, threads: seq<Thread>, idleq: seq<nat>, idleCnt: int, nodeAns: int,
                       up: seq<Up>, down: seq<Down>, final: bool, total: int)

  datatype State = State(server: Server, nodes: seq<Node>, idleNodes: int, tot: int, finished: bool)

  /** Who moves next. */
  datatype Step =
    | Ask(n: nat, t: nat)
    | Dispatch(n: nat)
    | Work(n: nat, t: nat)
    | Leave(n: nat, t: nat)
    | SendReport(n: nat)
    | TakeIdle(n: nat)
    | TakeOverwork(n: nat)
    | TakeReport(n: nat)
    | Finish
    | TakeEnd(n: nat)

  // ----- sums -----

  ghost function Total(xs: seq<int>): int {
    if |xs| == 0 then 0 else Total(xs[..|xs| - 1]) + xs[|xs| - 1]
  }

  lemma {:induction false} TotalUpdate(xs: seq<int>, i: nat, y: int)
    requires i < |xs|
    ensures Total(xs[i := y]) == Total(xs) - xs[i] + y
  {
    var n := |xs| - 1;
    if i < n {
      TotalUpdate(xs[..n], i, y);
      assert xs[i := y][..n] == xs[..n][i := y];
    } else {
      assert xs[i := y][..n] == xs[..n];
    }
  }

  lemma {:induction false} TotalZero(xs: seq<int>)
    requires forall i :: 0 <= i < |xs| ==> xs[i] == 0
    ensures Total(xs) == 0
  {
    if |xs| > 0 {
      TotalZero(xs[..|xs| - 1]);
    }
  }

  // ----- the weight in each place -----

  ghost function ThreadSum(k: Config, t: Thread): int {
    match t
    case Free(a) => a
    case Queued(a) => a
    case Busy(a, task) => a + RangeSum(k, task)
    case Told(a) => a
    case Gone => 0
  }

  ghost function ThreadSums(k: Config, ts: seq<Thread>): (r: seq<int>)
    ensures |r| == |ts|
  {
    seq(|ts|, i requires 0 <= i < |ts| => ThreadSum(k, ts[i]))
  }

  ghost function UpSum(up: seq<Up>): int {
    if |up| == 0 then 0 else UpSum(up[..|up| - 1]) + match up[|up| - 1] case Idle => 0 case Report(a) => a
  }

  ghost function DownSum(k: Config, down: seq<Down>): int {
    if |down| == 0 then 0
    else DownSum(k, down[..|down| - 1]) + match down[|down| - 1] case Overwork(t) => TaskSum(k, t) case End(_) => 0
  }

  /** nodeAns counts until the node has reported. */
  ghost function NodeSum(k: Config, d: Node): int {
    TaskSum(k, d.local) + Total(ThreadSums(k, d.threads)) + (if d.idleCnt == -1 then 0 else d.nodeAns)
      + UpSum(d.up) + DownSum(k, d.down)
  }

  ghost function NodeSums(k: Config, nodes: seq<Node>): (r: seq<int>)
    ensures |r| == |nodes|
  {
    seq(|nodes|, i requires 0 <= i < |nodes| => NodeSum(k, nodes[i]))
  }

  /** All the weight there is: unassigned, on its way, being worked on, or counted. */
  ghost function Value(k: Config, s: State): int
    requires k.Valid() && ServerOk(k.c, s.server)
  {
    ServerSum(k, s.server) + Total(NodeSums(k, s.nodes)) + s.tot
  }

  // ----- the invariant -----

  /** The queue holds exactly the queued threads, each once. */
  ghost predicate QueueOk(d: Node) {
    && (forall a, b :: 0 <= a < b < |d.idleq| ==> d.idleq[a] != d.idleq[b])
    && (forall t: nat :: t in d.idleq <==> t < |d.threads| && d.threads[t].Queued?)
  }

  ghost function GoneCount(ts: seq<Thread>): (n: nat)
    ensures n <= |ts|
  {
    if |ts| == 0 then 0 else GoneCount(ts[..|ts| - 1]) + if ts[|ts| - 1].Gone? then 1 else 0
  }

  /** Before its report a node counts its gone threads; at its report all are gone. */
  ghost predicate CountOk(d: Node) {
    if d.idleCnt == -1 then GoneCount(d.threads) == |d.threads| else d.idleCnt == GoneCount(d.threads)
  }

  /** Threads are told to stop only after the node was. */
  ghost predicate ThreadsOk(c: Csr, d: Node)
    requires c.Valid()
  {
    && |d.threads| > 0
    && (forall t :: 0 <= t < |d.threads| && (d.threads[t].Told? || d.threads[t].Gone?) ==> d.local.Stop?)
    && (forall t :: 0 <= t < |d.threads| && d.threads[t].Busy? ==> TaskOk(c, d.threads[t].task))
  }

  /** Exactly one thing is going on between a node and the server. */
  ghost predicate ChannelsOk(d: Node, own: bool) {
    !d.final && if d.local.Range? && d.local.lo == d.local.hi then
      !own && d.idleCnt != -1
      && ((d.up == [Idle] && d.down == []) || (d.up == [] && |d.down| == 1 && d.down[0].Overwork? && !d.down[0].task.Empty()))
    else
      d.down == [] && (d.up == [] || (!own && d.idleCnt == -1 && |d.up| == 1 && d.up[0].Report?))
  }

  /** A stop order anywhere means that nothing is left to hand out. */
  ghost predicate StopOk(c: Csr, s: Server, d: Node)
    requires c.Valid()
  {
    d.local.Stop? || (|d.down| > 0 && d.down[0] == Overwork(Stop)) ==> s.cur == c.Vertices()
  }

  ghost predicate TasksOk(c: Csr, d: Node)
    requires c.Valid()
  {
    TaskOk(c, d.local) && (|d.down| > 0 && d.down[0].Overwork? ==> TaskOk(c, d.down[0].task))
  }

  ghost predicate NodeOk(c: Csr, s: Server, d: Node, own: bool)
    requires c.Valid()
  {
    QueueOk(d) && CountOk(d) && ThreadsOk(c, d) && ChannelsOk(d, own) && StopOk(c, s, d) && TasksOk(c, d)
  }

  /** The server has this node's report. */
  predicate Counted(d: Node) {
    d.idleCnt == -1 && d.up == []
  }

  ghost function CountedNodes(nodes: seq<Node>): (n: nat)
    ensures n <= |nodes|
  {
    if |nodes| == 0 then 0 else CountedNodes(nodes[..|nodes| - 1]) + if Counted(nodes[|nodes| - 1]) then 1 else 0
  }

  ghost predicate Running(k: Config, s: State)
    requires k.Valid()
  {
    && !s.finished && |s.nodes| > 0 && ServerOk(k.c, s.server)
    && (forall n :: 0 <= n < |s.nodes| ==> NodeOk(k.c, s.server, s.nodes[n], n == 0))
    && s.idleNodes == CountedNodes(s.nodes)
  }

  // ----- the steps -----

  function SetThread(d: Node, t: nat, x: Thread): Node
    requires t < |d.threads|
  {
    d.(threads := d.threads[t := x])
  }

  function AnsOf(t: Thread): int {
    match t case Free(a) => a case Queued(a) => a case Busy(a, _) => a case Told(a) => a case Gone => 0
  }

  /** get_edge_range: a thread queues for work. */
  function AskNode(d: Node, t: nat): Node
    requires t < |d.threads|
  {
    SetThread(d, t, Queued(AnsOf(d.threads[t]))).(idleq := d.idleq + [t])
  }

  /** The head of the queue is told to stop. */
  function StopHead(d: Node): Node
    requires |d.idleq| > 0 && d.idleq[0] < |d.threads|
  {
    SetThread(d, d.idleq[0], Told(AnsOf(d.threads[d.idleq[0]]))).(idleq := d.idleq[1..])
  }

  /** The head of the queue gets the front of the local range. */
  function ServeHead(d: Node, chunk: nat): Node
    requires |d.idleq| > 0 && d.idleq[0] < |d.threads| && d.local.Range?
  {
    var mid := if d.local.lo + chunk < d.local.hi then d.local.lo + chunk else d.local.hi;
    SetThread(d, d.idleq[0], Busy(AnsOf(d.threads[d.idleq[0]]), Range(d.local.v, d.local.lo, mid)))
      .(idleq := d.idleq[1..], local := d.local.(lo := mid))
  }

  function WorkNode(d: Node, t: nat, done: int): Node
    requires t < |d.threads|
  {
    SetThread(d, t, Free(AnsOf(d.threads[t]) + done))
  }

  /** report: the answer goes to the node, which counts one more idle thread. */
  function LeaveNode(d: Node, t: nat): Node
    requires t < |d.threads|
  {
    SetThread(d, t, Gone).(nodeAns := d.nodeAns + AnsOf(d.threads[t]), idleCnt := d.idleCnt + 1)
  }

  ghost predicate Enabled(k: Config, s: State, step: Step)
    requires k.Valid()
  {
    match step
    case Ask(n, t) => !s.finished && n < |s.nodes| && t < |s.nodes[n].threads| && s.nodes[n].threads[t].Free?
    case Dispatch(n) => !s.finished && n < |s.nodes| && |s.nodes[n].idleq| > 0
      && s.nodes[n].idleq[0] < |s.nodes[n].threads| && !s.nodes[n].local.Empty()
    case Work(n, t) => !s.finished && n < |s.nodes| && t < |s.nodes[n].threads| && s.nodes[n].threads[t].Busy?
    case Leave(n, t) => !s.finished && n < |s.nodes| && t < |s.nodes[n].threads| && s.nodes[n].threads[t].Told?
    case SendReport(n) => !s.finished && n < |s.nodes| && s.nodes[n].idleCnt == |s.nodes[n].threads|
    case TakeIdle(n) => !s.finished && n < |s.nodes| && |s.nodes[n].up| > 0 && s.nodes[n].up[0].Idle?
    case TakeOverwork(n) => !s.finished && n < |s.nodes| && |s.nodes[n].down| > 0 && s.nodes[n].down[0].Overwork?
    case TakeReport(n) => !s.finished && n < |s.nodes| && |s.nodes[n].up| > 0 && s.nodes[n].up[0].Report?
    case Finish => !s.finished && s.idleNodes == |s.nodes|
    case TakeEnd(n) => s.finished && n < |s.nodes| && |s.nodes[n].down| > 0 && s.nodes[n].down[0].End?
  }

  ghost function Apply(k: Config, s: State, step: Step): State
    requires k.Valid() && Enabled(k, s, step)
  {
    match step
    case Ask(n, t) => s.(nodes := s.nodes[n := AskNode(s.nodes[n], t)])
    case Dispatch(n) =>
      if s.nodes[n].local.Stop? then
        s.(nodes := s.nodes[n := StopHead(s.nodes[n])])
      else
        var d := ServeHead(s.nodes[n], k.ompChunk);
        if !d.local.Empty() then
          s.(nodes := s.nodes[n := d])
        else if n == 0 then
          var (server, task) := GetSend(k.c, k.skip, k.mpiChunk, s.server);
          s.(server := server, nodes := s.nodes[n := d.(local := task)])
        else
          s.(nodes := s.nodes[n := d.(up := d.up + [Idle])])
    case Work(n, t) =>
      s.(nodes := s.nodes[n := WorkNode(s.nodes[n], t, RangeSum(k, s.nodes[n].threads[t].task))])
    case Leave(n, t) => s.(nodes := s.nodes[n := LeaveNode(s.nodes[n], t)])
    case SendReport(n) =>
      var d := s.nodes[n];
      if n == 0 then
        s.(nodes := s.nodes[n := d.(idleCnt := -1)], idleNodes := s.idleNodes + 1, tot := s.tot + d.nodeAns)
      else
        s.(nodes := s.nodes[n := d.(idleCnt := -1, up := d.up + [Report(d.nodeAns)])])
    case TakeIdle(n) =>
      var d := s.nodes[n];
      var (server, task) := GetSend(k.c, k.skip, k.mpiChunk, s.server);
      s.(server := server, nodes := s.nodes[n := d.(up := d.up[1..], down := d.down + [Overwork(task)])])
    case TakeOverwork(n) =>
      var d := s.nodes[n];
      s.(nodes := s.nodes[n := d.(local := d.down[0].task, down := d.down[1..])])
    case TakeReport(n) =>
      var d := s.nodes[n];
      s.(nodes := s.nodes[n := d.(up := d.up[1..])], idleNodes := s.idleNodes + 1, tot := s.tot + d.up[0].ans)
    case Finish => s.(finished := true, nodes := seq(|s.nodes|, n requires 0 <= n < |s.nodes| =>
        if n == 0 then s.nodes[n] else s.nodes[n].(down := s.nodes[n].down + [End(s.tot)])))
    case TakeEnd(n) =>
      var d := s.nodes[n];
      s.(nodes := s.nodes[n := d.(final := true, total := d.down[0].total, down := d.down[1..])])
  }

  lemma {:induction false} QueueHead(d: Node)
    requires QueueOk(d) && |d.idleq| > 0
    ensures d.idleq[0] < |d.threads| && d.threads[d.idleq[0]].Queued?
  {
    assert d.idleq[0] in d.idleq;
  }

  // ----- one node at a time -----

  lemma {:induction false} CountedUpdate(nodes: seq<Node>, n: nat, d: Node)
    requires n < |nodes|
    ensures CountedNodes(nodes[n := d])
      == CountedNodes(nodes) - (if Counted(nodes[n]) then 1 else 0) + (if Counted(d) then 1 else 0)
  {
    var m := |nodes| - 1;
    if n < m {
      CountedUpdate(nodes[..m], n, d);
      assert nodes[n := d][..m] == nodes[..m][n := d];
    } else {
      assert nodes[n := d][..m] == nodes[..m];
    }
  }

  lemma {:induction false} NodeSumsUpdate(k: Config, nodes: seq<Node>, n: nat, d: Node)
    requires n < |nodes|
    ensures Total(NodeSums(k, nodes[n := d])) == Total(NodeSums(k, nodes)) - NodeSum(k, nodes[n]) + NodeSum(k, d)
  {
    hide NodeSum;
    TotalUpdate(NodeSums(k, nodes), n, NodeSum(k, d));
    assert NodeSums(k, nodes[n := d]) == NodeSums(k, nodes)[n := NodeSum(k, d)];
  }

  lemma {:induction false} ThreadUpdate(k: Config, d: Node, t: nat, x: Thread)
    requires t < |d.threads|
    ensures Total(ThreadSums(k, SetThread(d, t, x).threads))
      == Total(ThreadSums(k, d.threads)) - ThreadSum(k, d.threads[t]) + ThreadSum(k, x)
  {
    hide ThreadSum;
    TotalUpdate(ThreadSums(k, d.threads), t, ThreadSum(k, x));
    assert ThreadSums(k, d.threads[t := x]) == ThreadSums(k, d.threads)[t := ThreadSum(k, x)];
  }

  lemma {:induction false} GoneUpdate(ts: seq<Thread>, t: nat, x: Thread)
    requires t < |ts|
    ensures GoneCount(ts[t := x]) == GoneCount(ts) - (if ts[t].Gone? then 1 else 0) + (if x.Gone? then 1 else 0)
  {
    var m := |ts| - 1;
    if t < m {
      GoneUpdate(ts[..m], t, x);
      assert ts[t := x][..m] == ts[..m][t := x];
    } else {
      assert ts[t := x][..m] == ts[..m];
    }
  }

  /** A change of one node and of the server carries over to the whole state. */
  lemma {:induction false} Replace(k: Config, s: State, server: Server, n: nat, d: Node, more: int, add: int)
    requires k.Valid() && Running(k, s) && n < |s.nodes|
    requires ServerOk(k.c, server) && (s.server.cur == k.c.Vertices() ==> server.cur == k.c.Vertices())
    requires NodeOk(k.c, server, d, n == 0)
    requires more == (if Counted(d) then 1 else 0) - (if Counted(s.nodes[n]) then 1 else 0)
    requires ServerSum(k, s.server) + NodeSum(k, s.nodes[n]) == ServerSum(k, server) + NodeSum(k, d) + add
    ensures var s' := State(server, s.nodes[n := d], s.idleNodes + more, s.tot + add, false);
      Running(k, s') && Value(k, s') == Value(k, s)
  {
    hide ServerSum, NodeSum, ServerOk, QueueOk, CountOk, ThreadsOk, ChannelsOk, TasksOk, Counted, Csr.Valid;
    CountedUpdate(s.nodes, n, d);
    NodeSumsUpdate(k, s.nodes, n, d);
    forall m | 0 <= m < |s.nodes| && m != n ensures NodeOk(k.c, server, s.nodes[m], m == 0) {
      assert NodeOk(k.c, s.server, s.nodes[m], m == 0);
    }
  }

  /** One thread changes: what has to be checked for the node. */
  lemma {:induction false} ThreadStep(c: Csr, k: Config, server: Server, d: Node, own: bool, t: nat, x: Thread, d': Node)
    requires c.Valid() && NodeOk(c, server, d, own) && t < |d.threads|
    requires !d.threads[t].Gone? && d' == SetThread(d, t, x).(idleq := d'.idleq, nodeAns := d'.nodeAns, idleCnt := d'.idleCnt)
    requires QueueOk(d') && d.idleCnt != -1
    requires if x.Gone? then d'.idleCnt == d.idleCnt + 1 && d'.nodeAns == d.nodeAns + ThreadSum(k, d.threads[t])
             else d'.idleCnt == d.idleCnt && d'.nodeAns == d.nodeAns && ThreadSum(k, x) == ThreadSum(k, d.threads[t])
    requires (x.Told? || x.Gone? ==> d.local.Stop?) && (x.Busy? ==> TaskOk(c, x.task))
    ensures NodeOk(c, server, d', own) && NodeSum(k, d') == NodeSum(k, d) && Counted(d') == Counted(d)
  {
    hide QueueOk, TaskOk, TaskSum, Csr.Valid, NodeSum;
    GoneUpdate(d.threads, t, x);
    assert d'.idleCnt != -1;
    SumStep(k, d, t, x, d');
  }

  lemma {:induction false} SumStep(k: Config, d: Node, t: nat, x: Thread, d': Node)
    requires t < |d.threads| && d' == SetThread(d, t, x).(idleq := d'.idleq, nodeAns := d'.nodeAns, idleCnt := d'.idleCnt)
    requires d.idleCnt != -1 && d'.idleCnt != -1
    requires d'.nodeAns + ThreadSum(k, x) == d.nodeAns + ThreadSum(k, d.threads[t])
    ensures NodeSum(k, d') == NodeSum(k, d)
  {
    hide TaskSum, ThreadSum, UpSum, DownSum;
    ThreadUpdate(k, d, t, x);
    assert d'.threads == SetThread(d, t, x).threads;
  }

  /** Some thread is not gone, so the node has not reported. */
  lemma {:induction false} NotReported(d: Node, t: nat)
    requires CountOk(d) && t < |d.threads| && !d.threads[t].Gone?
    ensures d.idleCnt != -1
  {
    SomeLeft(d.threads, t);
  }

  lemma {:induction false} SomeLeft(ts: seq<Thread>, t: nat)
    requires t < |ts| && !ts[t].Gone?
    ensures GoneCount(ts) < |ts|
  {
    if t < |ts| - 1 {
      SomeLeft(ts[..|ts| - 1], t);
    }
  }

  lemma {:induction false} AllGone(ts: seq<Thread>)
    requires GoneCount(ts) == |ts|
    ensures forall t :: 0 <= t < |ts| ==> ts[t].Gone?
  {
    forall t | 0 <= t < |ts| ensures ts[t].Gone? {
      if !ts[t].Gone? {
        SomeLeft(ts, t);
      }
    }
  }

  lemma {:induction false} QueueAsk(d: Node, t: nat)
    requires QueueOk(d) && t < |d.threads| && d.threads[t].Free?
    ensures QueueOk(AskNode(d, t))
  {
    var d' := AskNode(d, t);
    forall u: nat ensures u in d'.idleq <==> u < |d'.threads| && d'.threads[u].Queued? {
      assert u in d'.idleq <==> u in d.idleq || u == t;
    }
  }

  lemma {:induction false} QueuePop(d: Node, x: Thread, d': Node)
    requires QueueOk(d) && |d.idleq| > 0 && d.idleq[0] < |d.threads| && !x.Queued?
    requires d'.idleq == d.idleq[1..] && d'.threads == d.threads[d.idleq[0] := x]
    ensures QueueOk(d')
  {
    forall u: nat ensures u in d'.idleq <==> u < |d'.threads| && d'.threads[u].Queued? {
      assert d.idleq == [d.idleq[0]] + d.idleq[1..];
      assert u in d.idleq <==> u == d.idleq[0] || u in d.idleq[1..];
      if u in d.idleq[1..] {
        var a :| 1 <= a < |d.idleq| && d.idleq[a] == u;
        assert d.idleq[0] != d.idleq[a];
      }
    }
  }

  lemma {:induction false} QueueOther(d: Node, t: nat, x: Thread, d': Node)
    requires QueueOk(d) && t < |d.threads| && !d.threads[t].Queued? && !x.Queued?
    requires d'.idleq == d.idleq && d'.threads == d.threads[t := x]
    ensures QueueOk(d')
  {
  }

  lemma {:induction false} AskKeeps(k: Config, s: State, n: nat, t: nat)
    requires k.Valid() && Running(k, s) && Enabled(k, s, Ask(n, t))
    ensures var s' := Apply(k, s, Ask(n, t)); Running(k, s') && Value(k, s') == Value(k, s)
  {
    hide NodeSum, ServerSum, ServerOk, Csr.Valid, ThreadsOk, ChannelsOk, TasksOk, StopOk, QueueOk, Value;
    var d := s.nodes[n];
    var d' := AskNode(d, t);
    assert NodeOk(k.c, s.server, d, n == 0);
    NotReported(d, t);
    QueueAsk(d, t);
    ThreadStep(k.c, k, s.server, d, n == 0, t, d'.threads[t], d');
    Replace(k, s, s.server, n, d', 0, 0);
  }

  lemma {:induction false} WorkKeeps(k: Config, s: State, n: nat, t: nat)
    requires k.Valid() && Running(k, s) && Enabled(k, s, Work(n, t))
    ensures var s' := Apply(k, s, Work(n, t)); Running(k, s') && Value(k, s') == Value(k, s)
  {
    hide NodeSum, ServerSum, ServerOk, Csr.Valid, ThreadsOk, ChannelsOk, TasksOk, StopOk, QueueOk, RangeSum, Value;
    var d := s.nodes[n];
    var x := Free(d.threads[t].ans + RangeSum(k, d.threads[t].task));
    var d' := SetThread(d, t, x);
    assert NodeOk(k.c, s.server, d, n == 0);
    NotReported(d, t);
    QueueOther(d, t, x, d');
    ThreadStep(k.c, k, s.server, d, n == 0, t, x, d');
    Replace(k, s, s.server, n, d', 0, 0);
  }

  lemma {:induction false} LeaveKeeps(k: Config, s: State, n: nat, t: nat)
    requires k.Valid() && Running(k, s) && Enabled(k, s, Leave(n, t))
    ensures var s' := Apply(k, s, Leave(n, t)); Running(k, s') && Value(k, s') == Value(k, s)
  {
    hide NodeSum, ServerSum, ServerOk, Csr.Valid, ChannelsOk, TasksOk, StopOk, QueueOk, Value;
    var d := s.nodes[n];
    var d' := LeaveNode(d, t);
    assert NodeOk(k.c, s.server, d, n == 0);
    NotReported(d, t);
    QueueOther(d, t, Gone, d');
    ThreadStep(k.c, k, s.server, d, n == 0, t, Gone, d');
    Replace(k, s, s.server, n, d', 0, 0);
  }

  lemma {:induction false} StopKeeps(k: Config, s: State, n: nat)
    requires k.Valid() && Running(k, s) && Enabled(k, s, Dispatch(n)) && s.nodes[n].local.Stop?
    ensures var s' := Apply(k, s, Dispatch(n)); Running(k, s') && Value(k, s') == Value(k, s)
  {
    hide NodeSum, ServerSum, ServerOk, Csr.Valid, ChannelsOk, TasksOk, StopOk, QueueOk, Value;
    var d := s.nodes[n];
    assert NodeOk(k.c, s.server, d, n == 0);
    QueueHead(d);
    var t, d' := d.idleq[0], StopHead(d);
    NotReported(d, t);
    QueuePop(d, d'.threads[t], d');
    ThreadStep(k.c, k, s.server, d, n == 0, t, d'.threads[t], d');
    Replace(k, s, s.server, n, d', 0, 0);
  }

  /** Handing the front of the local range to a thread moves weight inside the node. */
  lemma {:induction false} ServeSums(k: Config, d: Node)
    requires k.ompChunk > 0 && |d.idleq| > 0 && d.idleq[0] < |d.threads| && d.threads[d.idleq[0]].Queued?
    requires d.local.Range? && d.local.lo < d.local.hi
    ensures NodeSum(k, ServeHead(d, k.ompChunk)) == NodeSum(k, d)
  {
    hide UpSum, DownSum, Total;
    var d', t := ServeHead(d, k.ompChunk), d.idleq[0];
    ThreadUpdate(k, d, t, d'.threads[t]);
    assert d'.threads == SetThread(d, t, d'.threads[t]).threads;
  }

  /** What survives in the node when its head is served. */
  lemma {:induction false} ServeOk(c: Csr, server: Server, d: Node, own: bool, chunk: nat)
    requires c.Valid() && NodeOk(c, server, d, own) && chunk > 0
    requires |d.idleq| > 0 && d.idleq[0] < |d.threads| && d.threads[d.idleq[0]].Queued?
    requires d.local.Range? && d.local.lo != d.local.hi
    ensures var d' := ServeHead(d, chunk);
      && QueueOk(d') && CountOk(d') && ThreadsOk(c, d') && d'.idleCnt == d.idleCnt != -1 && !d'.final
      && d'.up == d.up == [] && d'.down == d.down == []
      && d'.local.Range? && d'.local.hi == d.local.hi && d.local.lo < d'.local.lo <= d.local.hi
      && TaskOk(c, d'.local)
  {
    hide Csr.Valid;
    var d', t := ServeHead(d, chunk), d.idleq[0];
    NotReported(d, t);
    QueuePop(d, d'.threads[t], d');
    GoneUpdate(d.threads, t, d'.threads[t]);
  }

  lemma {:induction false} ServeKeeps(k: Config, s: State, n: nat)
    requires k.Valid() && Running(k, s) && Enabled(k, s, Dispatch(n)) && s.nodes[n].local.Range?
    ensures var s' := Apply(k, s, Dispatch(n)); Running(k, s') && Value(k, s') == Value(k, s)
  {
    hide NodeSum, ServerSum, ServerOk, Csr.Valid, QueueOk, CountOk, ThreadsOk, TaskOk, GetSend, Value;
    var d := s.nodes[n];
    assert NodeOk(k.c, s.server, d, n == 0);
    QueueHead(d);
    ServeOk(k.c, s.server, d, n == 0, k.ompChunk);
    RangeInOrder(k.c, d.local);
    ServeSums(k, d);
    var d' := ServeHead(d, k.ompChunk);
    if !d'.local.Empty() {
      Replace(k, s, s.server, n, d', 0, 0);
    } else if n == 0 {
      RefillKeeps(k, s, d');
    } else {
      IdleSums(k, d');
      IdleOk(k.c, s.server, d');
      Replace(k, s, s.server, n, d'.(up := d'.up + [Idle]), 0, 0);
    }
  }

  lemma {:induction false} RangeInOrder(c: Csr, t: Task)
    requires c.Valid() && TaskOk(c, t) && t.Range?
    ensures t.lo <= t.hi
  {
  }

  /** An empty-handed node may ask for more. */
  lemma {:induction false} IdleOk(c: Csr, server: Server, d: Node)
    requires c.Valid() && QueueOk(d) && CountOk(d) && ThreadsOk(c, d) && d.idleCnt != -1
    requires d.up == [] && d.down == [] && d.local.Empty() && TaskOk(c, d.local) && !d.final
    ensures NodeOk(c, server, d.(up := d.up + [Idle]), false)
    ensures !Counted(d) && !Counted(d.(up := d.up + [Idle]))
  {
    hide Csr.Valid, TaskOk;
    var d' := d.(up := d.up + [Idle]);
    assert QueueOk(d') && CountOk(d') && ThreadsOk(c, d');
  }

  lemma {:induction false} IdleSums(k: Config, d: Node)
    ensures NodeSum(k, d.(up := d.up + [Idle])) == NodeSum(k, d)
  {
    assert (d.up + [Idle])[..|d.up|] == d.up;
  }

  /** The server's own node fetches the next range directly. */
  lemma {:induction false} RefillKeeps(k: Config, s: State, d: Node)
    requires k.Valid() && Running(k, s)
    requires NodeSum(k, d) == NodeSum(k, s.nodes[0])
    requires QueueOk(d) && CountOk(d) && ThreadsOk(k.c, d) && d.idleCnt == s.nodes[0].idleCnt != -1
    requires d.up == [] && d.down == [] && d.local.Empty() && !d.final && s.nodes[0].up == []
    ensures var (server, task) := GetSend(k.c, k.skip, k.mpiChunk, s.server);
      var s' := s.(server := server, nodes := s.nodes[0 := d.(local := task)]);
      Running(k, s') && Value(k, s') == Value(k, s)
  {
    hide Running, ServerSum, ServerOk, Csr.Valid, QueueOk, CountOk, GetSend, Value, Total, ThreadSums;
    RunningServer(k, s);
    GetSendConserves(k, s.server);
    var (server, task) := GetSend(k.c, k.skip, k.mpiChunk, s.server);
    var d' := d.(local := task);
    FreshLocal(k.c, server, d, task);
    LocalSums(k, d, task);
    Replace(k, s, server, 0, d', 0, 0);
    assert s.(server := server, nodes := s.nodes[0 := d'])
      == State(server, s.nodes[0 := d'], s.idleNodes + 0, s.tot + 0, false);
  }

  lemma {:induction false} RunningServer(k: Config, s: State)
    requires k.Valid() && Running(k, s)
    ensures ServerOk(k.c, s.server) && |s.nodes| > 0 && !s.finished
  {
  }

  lemma {:induction false} LocalSums(k: Config, d: Node, task: Task)
    requires d.local.Empty()
    ensures NodeSum(k, d.(local := task)) == NodeSum(k, d) + TaskSum(k, task)
  {
    hide Total, UpSum, DownSum;
  }

  /** An empty-handed node may take any fresh task. */
  lemma {:induction false} FreshLocal(c: Csr, server: Server, d: Node, task: Task)
    requires c.Valid() && QueueOk(d) && CountOk(d) && ThreadsOk(c, d) && d.idleCnt != -1
    requires d.up == [] && d.down == [] && d.local.Empty() && !d.final
    requires TaskOk(c, task) && !task.Empty() && (task.Stop? ==> server.cur == c.Vertices())
    ensures forall own :: NodeOk(c, server, d.(local := task), own)
  {
    hide Csr.Valid, TaskOk;
    var d' := d.(local := task);
    assert QueueOk(d') && CountOk(d') && ThreadsOk(c, d');
  }

  // ----- messages -----

  lemma {:induction false} TakeIdleKeeps(k: Config, s: State, n: nat)
    requires k.Valid() && Running(k, s) && Enabled(k, s, TakeIdle(n))
    ensures var s' := Apply(k, s, TakeIdle(n)); Running(k, s') && Value(k, s') == Value(k, s)
  {
    hide ServerSum, ServerOk, Csr.Valid, QueueOk, CountOk, GetSend, Value, NodeSum, TaskOk, Csr.EdgeOf;
    var d := s.nodes[n];
    assert NodeOk(k.c, s.server, d, n == 0);
    GetSendConserves(k, s.server);
    var (server, task) := GetSend(k.c, k.skip, k.mpiChunk, s.server);
    var d' := d.(up := d.up[1..], down := d.down + [Overwork(task)]);
    AnswerSums(k, d, task);
    assert QueueOk(d') && CountOk(d') by {
      SameThreads(d, d');
    }
    Replace(k, s, server, n, d', 0, 0);
  }

  lemma {:induction false} SameThreads(d: Node, d': Node)
    requires QueueOk(d) && CountOk(d) && d'.threads == d.threads && d'.idleq == d.idleq && d'.idleCnt == d.idleCnt
    ensures QueueOk(d') && CountOk(d')
  {
  }

  lemma {:induction false} AnswerSums(k: Config, d: Node, task: Task)
    requires d.up == [Idle] && d.down == []
    ensures NodeSum(k, d.(up := d.up[1..], down := d.down + [Overwork(task)])) == NodeSum(k, d) + TaskSum(k, task)
  {
    hide Total, TaskSum, UpSum, DownSum, ThreadSums;
    assert d.up[1..] == [] && d.down + [Overwork(task)] == [Overwork(task)];
    OneUp(Idle);
    OneDown(k, Overwork(task));
  }

  lemma {:induction false} OneUp(m: Up)
    ensures UpSum([]) == 0 && UpSum([m]) == match m case Idle => 0 case Report(a) => a
  {
    assert [m][..0] == [];
  }

  lemma {:induction false} OneDown(k: Config, m: Down)
    ensures DownSum(k, []) == 0 && DownSum(k, [m]) == match m case Overwork(t) => TaskSum(k, t) case End(_) => 0
  {
    assert [m][..0] == [];
  }

  lemma {:induction false} TakeOverworkKeeps(k: Config, s: State, n: nat)
    requires k.Valid() && Running(k, s) && Enabled(k, s, TakeOverwork(n))
    ensures var s' := Apply(k, s, TakeOverwork(n)); Running(k, s') && Value(k, s') == Value(k, s)
  {
    hide ServerSum, ServerOk, Csr.Valid, QueueOk, CountOk, Value, NodeSum, Csr.EdgeOf;
    var d := s.nodes[n];
    assert NodeOk(k.c, s.server, d, n == 0);
    var task := d.down[0].task;
    var d0 := d.(down := []);
    var d' := d.(local := task, down := d.down[1..]);
    assert d' == d0.(local := task);
    SameThreads(d, d0);
    OverworkSums(k, d);
    LocalSums(k, d0, task);
    assert ThreadsOk(k.c, d0);
    FreshLocal(k.c, s.server, d0, task);
    Replace(k, s, s.server, n, d', 0, 0);
  }

  lemma {:induction false} OverworkSums(k: Config, d: Node)
    requires |d.down| == 1 && d.down[0].Overwork?
    ensures NodeSum(k, d) == NodeSum(k, d.(down := [])) + TaskSum(k, d.down[0].task)
  {
    hide Total, TaskSum;
    assert d.down[..0] == [];
  }

  lemma {:induction false} ReportKeeps(k: Config, s: State, n: nat)
    requires k.Valid() && Running(k, s) && Enabled(k, s, SendReport(n))
    ensures var s' := Apply(k, s, SendReport(n)); Running(k, s') && Value(k, s') == Value(k, s)
  {
    hide ServerSum, ServerOk, Csr.Valid, QueueOk, Value, NodeSum, Csr.EdgeOf, TaskOk;
    var d := s.nodes[n];
    assert NodeOk(k.c, s.server, d, n == 0);
    AllGone(d.threads);
    assert d.threads[0].Gone?;
    if n == 0 {
      var d' := d.(idleCnt := -1);
      assert QueueOk(d') by { QueueSame(d, d'); }
      ReportSums(k, d);
      Replace(k, s, s.server, n, d', 1, d.nodeAns);
    } else {
      var d' := d.(idleCnt := -1, up := d.up + [Report(d.nodeAns)]);
      assert QueueOk(d') by { QueueSame(d, d'); }
      ReportSums(k, d);
      Replace(k, s, s.server, n, d', 0, 0);
    }
  }

  lemma {:induction false} QueueSame(d: Node, d': Node)
    requires QueueOk(d) && d'.threads == d.threads && d'.idleq == d.idleq
    ensures QueueOk(d')
  {
  }

  lemma {:induction false} ReportSums(k: Config, d: Node)
    requires d.idleCnt != -1 && d.up == []
    ensures NodeSum(k, d.(idleCnt := -1)) == NodeSum(k, d) - d.nodeAns
    ensures NodeSum(k, d.(idleCnt := -1, up := d.up + [Report(d.nodeAns)])) == NodeSum(k, d)
  {
    hide Total, TaskSum;
    assert (d.up + [Report(d.nodeAns)])[..0] == [];
  }

  lemma {:induction false} TakeReportKeeps(k: Config, s: State, n: nat)
    requires k.Valid() && Running(k, s) && Enabled(k, s, TakeReport(n))
    ensures var s' := Apply(k, s, TakeReport(n)); Running(k, s') && Value(k, s') == Value(k, s)
  {
    hide ServerSum, ServerOk, Csr.Valid, QueueOk, Value, NodeSum, Csr.EdgeOf, TaskOk;
    var d := s.nodes[n];
    assert NodeOk(k.c, s.server, d, n == 0);
    var d' := d.(up := d.up[1..]);
    assert QueueOk(d') by { QueueSame(d, d'); }
    TakenSums(k, d);
    Replace(k, s, s.server, n, d', 1, d.up[0].ans);
  }

  lemma {:induction false} TakenSums(k: Config, d: Node)
    requires |d.up| == 1 && d.up[0].Report?
    ensures NodeSum(k, d.(up := d.up[1..])) == NodeSum(k, d) - d.up[0].ans
  {
    hide Total, TaskSum;
    assert d.up[..0] == [] && d.up[1..] == [];
  }

  // ----- whole runs -----

  lemma {:induction false} StepKeeps(k: Config, s: State, step: Step)
    requires k.Valid() && Running(k, s) && Enabled(k, s, step) && step != Finish
    ensures var s' := Apply(k, s, step); Running(k, s') && Value(k, s') == Value(k, s)
  {
    hide Running, Value, Csr.Valid;
    RunningServer(k, s);
    match step
    case Ask(n, t) => AskKeeps(k, s, n, t);
    case Dispatch(n) =>
      if s.nodes[n].local.Stop? {
        StopKeeps(k, s, n);
      } else {
        ServeKeeps(k, s, n);
      }
    case Work(n, t) => WorkKeeps(k, s, n, t);
    case Leave(n, t) => LeaveKeeps(k, s, n, t);
    case SendReport(n) => ReportKeeps(k, s, n);
    case TakeIdle(n) => TakeIdleKeeps(k, s, n);
    case TakeOverwork(n) => TakeOverworkKeeps(k, s, n);
    case TakeReport(n) => TakeReportKeeps(k, s, n);
    case TakeEnd(n) =>
  }

  lemma {:induction false} AllCounted(nodes: seq<Node>)
    requires CountedNodes(nodes) == |nodes|
    ensures forall n :: 0 <= n < |nodes| ==> Counted(nodes[n])
  {
    if |nodes| > 0 {
      AllCounted(nodes[..|nodes| - 1]);
      forall n | 0 <= n < |nodes| ensures Counted(nodes[n]) {
        assert n < |nodes| - 1 ==> nodes[..|nodes| - 1][n] == nodes[n];
      }
    }
  }

  /** A node whose report has arrived holds no weight any more, and was told to stop. */
  lemma {:induction false} CountedIsEmpty(c: Csr, k: Config, server: Server, d: Node, own: bool)
    requires c.Valid() && NodeOk(c, server, d, own) && Counted(d)
    ensures NodeSum(k, d) == 0 && server.cur == c.Vertices() && d.down == [] && !d.local.Empty()
  {
    hide Csr.Valid, QueueOk;
    AllGone(d.threads);
    assert d.threads[0].Gone?;
    TotalZero(ThreadSums(k, d.threads));
  }

  /** When every report has arrived, the server's total is all the weight there was. */
  lemma {:induction false} FinishHasAll(k: Config, s: State)
    requires k.Valid() && Running(k, s) && Enabled(k, s, Finish)
    ensures s.tot == Value(k, s)
    ensures forall n :: 0 <= n < |s.nodes| ==> s.nodes[n].down == []
  {
    hide NodeOk, NodeSum, Counted, Csr.Valid;
    AllCounted(s.nodes);
    forall n | 0 <= n < |s.nodes|
      ensures NodeSums(k, s.nodes)[n] == 0 && s.server.cur == k.c.Vertices() && s.nodes[n].down == []
    {
      CountedIsEmpty(k.c, k, s.server, s.nodes[n], n == 0);
    }
    TotalZero(NodeSums(k, s.nodes));
    assert NodeSums(k, s.nodes)[0] == 0;
  }

  /** What all the ranges of a run add, for these chunk sizes. */
  ghost function Planned(k: Config): int
    requires k.Valid()
  {
    StartServerOk(k.c);
    ServerSum(k, StartServer(k.c))
  }

  ghost function Start(k: Config, threads: seq<nat>): State
    requires k.Valid() && |threads| > 0
  {
    var (server', task) := GetSend(k.c, k.skip, k.mpiChunk, StartServer(k.c));
    State(server', seq(|threads|, n requires 0 <= n < |threads| => StartNode(threads[n], n == 0, task)), 0, 0, false)
  }

  ghost function StartNode(threads: nat, own: bool, task: Task): Node {
    Node(if own then task else Range(0, 0, 0), seq(threads, _ => Free(0)), [], 0, 0,
         if own then [] else [Idle], [], false, 0)
  }

  lemma {:induction false} StartNodeOk(c: Csr, k: Config, server: Server, threads: nat, own: bool, task: Task)
    requires c.Valid() && threads > 0 && TaskOk(c, task) && !task.Empty() && (task.Stop? ==> server.cur == c.Vertices())
    ensures NodeOk(c, server, StartNode(threads, own, task), own)
    ensures NodeSum(k, StartNode(threads, own, task)) == (if own then TaskSum(k, task) else 0)
    ensures !Counted(StartNode(threads, own, task))
  {
    hide Csr.Valid, TaskSum;
    var d := StartNode(threads, own, task);
    NoneGone(d.threads);
    TotalZero(ThreadSums(k, d.threads));
    assert TaskSum(k, Range(0, 0, 0)) == 0 by {
      EmptySum(k);
    }
    assert [Idle][..0] == [];
  }

  lemma {:induction false} EmptySum(k: Config)
    ensures TaskSum(k, Range(0, 0, 0)) == 0
  {
  }

  lemma {:induction false} NoneGone(ts: seq<Thread>)
    requires forall t :: 0 <= t < |ts| ==> !ts[t].Gone?
    ensures GoneCount(ts) == 0
  {
    if |ts| > 0 {
      NoneGone(ts[..|ts| - 1]);
    }
  }

  lemma {:induction false} NoneCounted(nodes: seq<Node>)
    requires forall n :: 0 <= n < |nodes| ==> !Counted(nodes[n])
    ensures CountedNodes(nodes) == 0
  {
    if |nodes| > 0 {
      NoneCounted(nodes[..|nodes| - 1]);
    }
  }

  lemma {:induction false} TotalFirst(xs: seq<int>)
    requires |xs| > 0 && forall i :: 1 <= i < |xs| ==> xs[i] == 0
    ensures Total(xs) == xs[0]
  {
    if |xs| > 1 {
      TotalFirst(xs[..|xs| - 1]);
    }
  }

  /** At the start all the weight is in the edges. */
  lemma {:induction false} StartHasAll(k: Config, threads: seq<nat>)
    requires k.Valid() && |threads| > 0 && forall n :: 0 <= n < |threads| ==> threads[n] > 0
    ensures Running(k, Start(k, threads))
    ensures Value(k, Start(k, threads)) == Planned(k)
  {
    hide NodeOk, NodeSum, Counted, Csr.Valid, GetSend, TaskSum, TaskOk;
    StartServerOk(k.c);
    var server := StartServer(k.c);
    GetSendConserves(k, server);
    var (server', task) := GetSend(k.c, k.skip, k.mpiChunk, server);
    var s := Start(k, threads);
    forall n | 0 <= n < |threads|
      ensures NodeOk(k.c, server', s.nodes[n], n == 0) && !Counted(s.nodes[n])
      ensures NodeSums(k, s.nodes)[n] == (if n == 0 then TaskSum(k, task) else 0)
    {
      StartNodeOk(k.c, k, server', threads[n], n == 0, task);
    }
    NoneCounted(s.nodes);
    TotalFirst(NodeSums(k, s.nodes));
  }

  /** The result is on its way to every other node, or has arrived. */
  ghost predicate Ended(s: State) {
    && s.finished && |s.nodes| > 0 && s.nodes[0].down == []
    && (forall n :: 1 <= n < |s.nodes| ==>
          if s.nodes[n].final then s.nodes[n].total == s.tot && s.nodes[n].down == [] else s.nodes[n].down == [End(s.tot)])
  }

  lemma {:induction false} FinishEnds(k: Config, s: State)
    requires k.Valid() && Running(k, s) && Enabled(k, s, Finish)
    ensures Ended(Apply(k, s, Finish)) && Apply(k, s, Finish).tot == Value(k, s)
  {
    hide NodeSum, ServerSum, Csr.Valid, QueueOk, CountOk, ThreadsOk, StopOk, TasksOk;
    FinishHasAll(k, s);
    forall n | 1 <= n < |s.nodes| ensures !s.nodes[n].final {
      assert NodeOk(k.c, s.server, s.nodes[n], false);
    }
  }

  /** states[i + 1] follows states[i] by some enabled step of some node or thread. */
  ghost predicate IsRun(k: Config, states: seq<State>, steps: seq<Step>)
    requires k.Valid()
  {
    && |states| == |steps| + 1
    && forall i :: 0 <= i < |steps| ==> Enabled(k, states[i], steps[i]) && states[i + 1] == Apply(k, states[i], steps[i])
  }

  /** Either still running with all weight accounted for, or ended with all of it in the total. */
  ghost predicate Accounted(k: Config, s: State)
    requires k.Valid()
  {
    if s.finished then Ended(s) && s.tot == Planned(k)
    else Running(k, s) && Value(k, s) == Planned(k)
  }

  lemma {:induction false} AccountedStep(k: Config, s: State, step: Step)
    requires k.Valid() && Accounted(k, s) && Enabled(k, s, step)
    ensures Accounted(k, Apply(k, s, step))
  {
    hide Running, Value, Csr.Valid, Planned;
    if !s.finished {
      if step == Finish {
        FinishEnds(k, s);
      } else {
        RunningServer(k, s);
        StepKeeps(k, s, step);
        RunningServer(k, Apply(k, s, step));
      }
    }
  }

  /** Safety over every run, whatever the interleaving: no edge is lost or counted twice,
      and a node that is told the result is told the sum over all edges. */
  lemma {:induction false} EveryRunAccounts(k: Config, threads: seq<nat>, states: seq<State>, steps: seq<Step>, i: nat)
    requires k.Valid() && |threads| > 0 && forall n :: 0 <= n < |threads| ==> threads[n] > 0
    requires IsRun(k, states, steps) && states[0] == Start(k, threads) && i < |states|
    ensures Accounted(k, states[i])
    decreases i
  {
    hide Running, Value, Csr.Valid, Start, Enabled, Apply;
    if i == 0 {
      StartHasAll(k, threads);
      RunningServer(k, states[0]);
    } else {
      EveryRunAccounts(k, threads, states, steps, i - 1);
      AccountedStep(k, states[i - 1], steps[i - 1]);
    }
  }

  // ----- no deadlock -----

  ghost predicate CanMove(k: Config, s: State)
    requires k.Valid()
  {
    exists step :: Enabled(k, s, step)
  }

  lemma {:induction false} SomeUncounted(nodes: seq<Node>) returns (n: nat)
    requires CountedNodes(nodes) < |nodes|
    ensures n < |nodes| && !Counted(nodes[n])
  {
    n := |nodes| - 1;
    if Counted(nodes[n]) {
      n := SomeUncounted(nodes[..n]);
    }
  }

  lemma {:induction false} SomeThreadMoves(k: Config, s: State, n: nat, t: nat)
    requires k.Valid() && Running(k, s) && n < |s.nodes| && t < |s.nodes[n].threads| && !s.nodes[n].threads[t].Gone?
    requires !s.nodes[n].local.Empty()
    ensures CanMove(k, s)
  {
    hide ServerOk, Csr.Valid;
    var d := s.nodes[n];
    assert NodeOk(k.c, s.server, d, n == 0);
    match d.threads[t]
    case Free(_) => assert Enabled(k, s, Ask(n, t));
    case Queued(_) =>
      assert t in d.idleq;
      QueueHead(d);
      assert Enabled(k, s, Dispatch(n));
    case Busy(_, _) => assert Enabled(k, s, Work(n, t));
    case Told(_) => assert Enabled(k, s, Leave(n, t));
  }

  lemma {:induction false} AllAreGone(ts: seq<Thread>)
    requires forall t :: 0 <= t < |ts| ==> ts[t].Gone?
    ensures GoneCount(ts) == |ts|
  {
    if |ts| > 0 {
      AllAreGone(ts[..|ts| - 1]);
    }
  }

  lemma {:induction false} NoDeadlock(k: Config, s: State)
    requires k.Valid() && Running(k, s)
    ensures CanMove(k, s)
  {
    hide ServerOk, Csr.Valid, QueueOk, ThreadsOk, StopOk, TasksOk;
    if s.idleNodes == |s.nodes| {
      assert Enabled(k, s, Finish);
    } else {
      var n := SomeUncounted(s.nodes);
      var d := s.nodes[n];
      assert NodeOk(k.c, s.server, d, n == 0);
      if d.idleCnt == -1 {
        assert Enabled(k, s, TakeReport(n));
      } else if d.local.Empty() {
        assert Enabled(k, s, TakeIdle(n)) || Enabled(k, s, TakeOverwork(n));
      } else if t :| 0 <= t < |d.threads| && !d.threads[t].Gone? {
        SomeThreadMoves(k, s, n, t);
      } else {
        AllAreGone(d.threads);
        assert Enabled(k, s, SendReport(n));
      }
    }
  }
}
