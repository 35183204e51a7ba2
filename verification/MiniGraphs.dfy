/** Pruned adjacency at run time: rows materialised into one buffer per minigraph, at
    build time or on demand, from the graph or from a parent minigraph. */
module MiniGraphs {
  import opened Counting
  import opened Patterns
  import opened SortedLists
  import opened VertexKernels
  import opened Ir
  import opened Positions

  /** m_degree: a length, or one of the two sentinel values. */
  datatype State = Held(len: nat) | WillPrune | NotPrune

  /** One minigraph. Entry i belongs to vertex[i]; its slice starts at ctn[pos[i]]. */
  datatype Mini = Mini(vertex: seq<nat>, inter: seq<nat>, bounded: bool,
                       parent: Option<nat>, link: seq<nat>, ctn: seq<nat>, pos: seq<nat>, state: seq<State>)

  /** The neighbours of v in the intersect set, below v if bounded. */
  ghost function PrunedSet(g: Graph, inter: seq<nat>, bounded: bool, v: nat): (s: set<nat>)
    ensures forall x :: x in s <==> x in inter && g.Edge(v, x) && (bounded ==> x < v)
  {
    set x | x in Elements(inter) && g.Edge(v, x) && (bounded ==> x < v)
  }

  ghost function Exact(g: Graph, m: Mini, i: nat): set<nat>
    requires i < |m.vertex|
  {
    PrunedSet(g, m.inter, m.bounded, m.vertex[i])
  }

  // ----- one minigraph -----

  ghost predicate Sized(m: Mini) {
    |m.state| == |m.vertex| && |m.pos| == |m.vertex| + 1
  }

  ghost predicate Inputs(g: Graph, vertex: seq<nat>, inter: seq<nat>) {
    && Sorted(vertex) && Sorted(inter)
    && (forall i :: 0 <= i < |vertex| ==> vertex[i] < |g.adj|)
  }

  /** The slice of entry i ends here: used, or reserved up to the next position. */
  ghost function End(m: Mini, i: nat): nat
    requires Sized(m) && i < |m.state|
  {
    match m.state[i]
    case Held(len) => m.pos[i] + len
    case WillPrune => m.pos[i + 1]
    case NotPrune => m.pos[i]
  }

  /** A held slice lists the pruned row; a reserved one is large enough for it. */
  ghost predicate SliceOk(g: Graph, m: Mini, i: nat)
    requires Sized(m) && i < |m.state|
  {
    match m.state[i]
    case Held(len) => m.pos[i] + len <= |m.ctn| && Lists(m.ctn[m.pos[i]..m.pos[i] + len], Exact(g, m, i))
    case WillPrune => m.pos[i] + |Exact(g, m, i)| <= m.pos[i + 1] <= |m.ctn|
    case NotPrune => true
  }

  /** Earlier slices end before later ones start. */
  ghost predicate Apart(m: Mini)
    requires Sized(m)
  {
    forall i, j :: 0 <= i < j < |m.state| && m.state[i] != NotPrune && m.state[j] != NotPrune ==> End(m, i) <= m.pos[j]
  }

  ghost predicate MiniOk(g: Graph, m: Mini) {
    && Sized(m) && Inputs(g, m.vertex, m.inter) && Apart(m)
    && forall i :: 0 <= i < |m.state| ==> SliceOk(g, m, i)
  }

  function Slice(m: Mini, i: nat): (s: seq<nat>)
    requires i < |m.state| && i < |m.pos| && m.state[i].Held? && m.pos[i] + m.state[i].len <= |m.ctn|
  {
    m.ctn[m.pos[i]..m.pos[i] + m.state[i].len]
  }

  // ----- the store: parents come before their children -----

  ghost predicate LinkOk(store: seq<Mini>, k: nat, m: Mini) {
    match m.parent
    case None => true
    case Some(p) =>
      && p < k && p < |store|
      && |m.link| == |m.vertex|
      && (forall i :: 0 <= i < |m.link| ==> m.link[i] < |store[p].vertex| && store[p].vertex[m.link[i]] == m.vertex[i])
      && Elements(m.inter) <= Elements(store[p].inter)
      && (store[p].bounded ==> m.bounded)
  }

  ghost predicate StoreOk(g: Graph, store: seq<Mini>) {
    forall k :: 0 <= k < |store| ==> MiniOk(g, store[k]) && LinkOk(store, k, store[k])
  }

  /** b is a with some of the reserved entries filled; nothing else changed, in particular
      no held slice. */
  ghost predicate Later(a: Mini, b: Mini) {
    && b == a.(ctn := b.ctn, state := b.state)
    && |a.state| == |b.state|
    && (forall i :: 0 <= i < |a.state| && a.state[i].Held? ==> SameSlice(a, b, i))
    && (forall i :: 0 <= i < |a.state| ==> (a.state[i].NotPrune? <==> b.state[i].NotPrune?))
  }

  ghost predicate SameSlice(a: Mini, b: Mini, i: nat)
    requires i < |a.state| == |b.state| && a.state[i].Held?
  {
    && b.state[i] == a.state[i]
    && (i < |a.pos| && i < |b.pos| && a.pos[i] + a.state[i].len <= |a.ctn| ==>
          b.pos[i] + b.state[i].len <= |b.ctn| && Slice(a, i) == Slice(b, i))
  }

  ghost predicate StoreLater(a: seq<Mini>, b: seq<Mini>) {
    |a| == |b| && forall k :: 0 <= k < |a| ==> Later(a[k], b[k])
  }

  /** A correct answer for vertex v: between the pruned row and the whole row. */
  ghost predicate RowOk(g: Graph, inter: seq<nat>, bounded: bool, v: nat, row: seq<nat>) {
    && Sorted(row)
    && (forall x :: x in row ==> g.Edge(v, x))
    && PrunedSet(g, inter, bounded, v) <= Elements(row)
  }

  // ----- what the store answers -----

  /** The answer for entry i of minigraph k: the pruned row if it is or will be pruned;
      otherwise whatever answers in its place. */
  ghost function AnswerSet(g: Graph, store: seq<Mini>, k: nat, i: nat): set<nat>
    requires StoreOk(g, store) && k < |store| && i < |store[k].vertex|
    decreases k, 1
  {
    EntryInStore(g, store, k, i);
    if store[k].state[i].NotPrune? then BaseSet(g, store, k, store[k], i) else Exact(g, store[k], i)
  }

  /** What answers in place of entry i of m: the linked entry of the parent, or the graph. */
  ghost function BaseSet(g: Graph, store: seq<Mini>, k: nat, m: Mini, i: nat): set<nat>
    requires StoreOk(g, store) && k <= |store| && LinkOk(store, k, m) && i < |m.vertex| && m.vertex[i] < |g.adj|
    decreases k, 0
  {
    match m.parent
    case Some(p) => AnswerSet(g, store, p, m.link[i])
    case None => Elements(g.adj[m.vertex[i]])
  }

  lemma {:induction false} EntryInStore(g: Graph, store: seq<Mini>, k: nat, i: nat)
    requires StoreOk(g, store) && k < |store| && i < |store[k].vertex|
    ensures MiniOk(g, store[k]) && LinkOk(store, k, store[k])
    ensures Sized(store[k]) && Inputs(g, store[k].vertex, store[k].inter) && store[k].vertex[i] < |g.adj|
    ensures store[k].state[i].Held? ==> store[k].pos[i] + store[k].state[i].len <= |store[k].ctn|
  {
    assert MiniOk(g, store[k]);
    assert SliceOk(g, store[k], i);
  }

  /** The nearest entry for the same vertex, going from parent to parent, that is pruned. */
  ghost function Pruner(g: Graph, store: seq<Mini>, k: nat, i: nat): (r: Option<(nat, nat)>)
    requires StoreOk(g, store) && k < |store| && i < |store[k].vertex|
    ensures r.Some? ==> r.value.0 <= k && r.value.1 < |store[r.value.0].vertex|
    decreases k
  {
    EntryInStore(g, store, k, i);
    if !store[k].state[i].NotPrune? then Some((k, i))
    else match store[k].parent
      case Some(p) => Pruner(g, store, p, store[k].link[i])
      case None => None
  }

  /** A passed-through entry answers the pruned row of the nearest ancestor that prunes its
      vertex, and the whole row if none does. */
  lemma {:induction false} AnswerIsPruners(g: Graph, store: seq<Mini>, k: nat, i: nat)
    requires StoreOk(g, store) && k < |store| && i < |store[k].vertex|
    ensures store[k].vertex[i] < |g.adj|
    ensures match Pruner(g, store, k, i)
      case Some(e) => store[e.0].vertex[e.1] == store[k].vertex[i] && AnswerSet(g, store, k, i) == Exact(g, store[e.0], e.1)
      case None => AnswerSet(g, store, k, i) == Elements(g.adj[store[k].vertex[i]])
    decreases k
  {
    hide StoreOk, MiniOk, Exact;
    EntryInStore(g, store, k, i);
    if store[k].state[i].NotPrune? && store[k].parent.Some? {
      AnswerIsPruners(g, store, store[k].parent.value, store[k].link[i]);
    }
  }

  /** Filling reserved entries changes no answer. */
  lemma {:induction false} AnswerKept(g: Graph, a: seq<Mini>, b: seq<Mini>, k: nat, i: nat)
    requires StoreOk(g, a) && StoreOk(g, b) && k < |a| <= |b| && i < |a[k].vertex|
    requires forall j :: 0 <= j <= k ==> Later(a[j], b[j])
    ensures i < |b[k].vertex| && AnswerSet(g, b, k, i) == AnswerSet(g, a, k, i)
    decreases k
  {
    hide StoreOk, MiniOk;
    assert Later(a[k], b[k]);
    EntryInStore(g, a, k, i);
    EntryInStore(g, b, k, i);
    if a[k].state[i].NotPrune? && a[k].parent.Some? {
      AnswerKept(g, a, b, a[k].parent.value, a[k].link[i]);
    }
  }

  // ----- small facts -----

  lemma {:induction false} LaterRefl(a: Mini)
    ensures Later(a, a)
  {
  }

  lemma {:induction false} LaterTrans(a: Mini, b: Mini, c: Mini)
    requires Later(a, b) && Later(b, c)
    ensures Later(a, c)
  {
    forall i | 0 <= i < |a.state| && a.state[i].Held? ensures SameSlice(a, c, i) {
      assert SameSlice(a, b, i) && SameSlice(b, c, i);
    }
  }

  lemma {:induction false} StoreTrans(a: seq<Mini>, b: seq<Mini>, c: seq<Mini>)
    requires StoreLater(a, b) && StoreLater(b, c)
    ensures StoreLater(a, c)
  {
    hide Later;
    forall k | 0 <= k < |a| ensures Later(a[k], c[k]) {
      LaterTrans(a[k], b[k], c[k]);
    }
  }

  lemma {:induction false} StoreRefl(a: seq<Mini>)
    ensures StoreLater(a, a)
  {
  }

  lemma {:induction false} LinkKept(a: seq<Mini>, b: seq<Mini>, k: nat, m: Mini, m': Mini)
    requires StoreLater(a, b) && LinkOk(a, k, m) && Later(m, m')
    ensures LinkOk(b, k, m')
  {
    if m.parent.Some? {
      assert Later(a[m.parent.value], b[m.parent.value]);
    }
  }

  /** Replacing one minigraph by a later version keeps the store in order. */
  lemma {:induction false} StorePut(g: Graph, store: seq<Mini>, k: nat, m: Mini)
    requires StoreOk(g, store) && k < |store| && Later(store[k], m) && MiniOk(g, m)
    ensures StoreOk(g, store[k := m]) && StoreLater(store, store[k := m])
  {
    hide MiniOk, Later;
    var after := store[k := m];
    forall j | 0 <= j < |store| ensures Later(store[j], after[j]) {
      LaterRefl(store[j]);
    }
    forall j | 0 <= j < |store| ensures MiniOk(g, after[j]) && LinkOk(after, j, after[j]) {
      LinkKept(store, after, j, store[j], after[j]);
    }
  }

  // ----- filling an entry -----

  function Overwrite(ctn: seq<nat>, at: nat, out: seq<nat>): (r: seq<nat>)
    requires at + |out| <= |ctn|
    ensures |r| == |ctn|
  {
    ctn[..at] + out + ctn[at + |out|..]
  }

  lemma {:induction false} OverwriteSlices(ctn: seq<nat>, at: nat, out: seq<nat>, lo: nat, hi: nat)
    requires at + |out| <= |ctn| && lo <= hi <= |ctn|
    ensures Overwrite(ctn, at, out)[at..at + |out|] == out
    ensures hi <= at || at + |out| <= lo ==> Overwrite(ctn, at, out)[lo..hi] == ctn[lo..hi]
  {
  }

  /** Writing at entry i: the buffer and the length change. */
  function Fill(m: Mini, i: nat, out: seq<nat>): Mini
    requires i < |m.state| && i < |m.pos| && m.pos[i] + |out| <= |m.ctn|
  {
    m.(ctn := Overwrite(m.ctn, m.pos[i], out), state := m.state[i := Held(|out|)])
  }

  /** No other slice reaches into [pos[i], pos[i] + len). */
  ghost predicate Room(m: Mini, i: nat, len: nat)
    requires Sized(m) && i < |m.state|
  {
    && m.pos[i] + len <= |m.ctn|
    && (forall j :: 0 <= j < i && m.state[j] != NotPrune ==> End(m, j) <= m.pos[i])
    && (forall j :: i < j < |m.state| && m.state[j] != NotPrune ==> m.pos[i] + len <= m.pos[j])
  }

  lemma {:induction false} FillOk(g: Graph, m: Mini, i: nat, out: seq<nat>)
    requires MiniOk(g, m) && i < |m.state| && !m.state[i].Held? && Room(m, i, |out|)
    requires Lists(out, Exact(g, m, i))
    ensures MiniOk(g, Fill(m, i, out)) && (m.state[i].WillPrune? ==> Later(m, Fill(m, i, out)))
    ensures Slice(Fill(m, i, out), i) == out
  {
    hide Lists, PrunedSet;
    var m' := Fill(m, i, out);
    OverwriteSlices(m.ctn, m.pos[i], out, 0, 0);
    forall j | 0 <= j < |m.state|
      ensures SliceOk(g, m', j) && (m.state[j].Held? ==> SameSlice(m, m', j))
    {
      FillOther(g, m, i, out, j);
    }
    forall a, b | 0 <= a < b < |m.state| && m'.state[a] != NotPrune && m'.state[b] != NotPrune
      ensures End(m', a) <= m'.pos[b]
    {
      assert a != i && b != i ==> End(m, a) <= m.pos[b];
      assert a != i ==> End(m', a) == End(m, a);
    }
  }

  /** Filling entry i leaves every other slice as it was. */
  lemma {:induction false} FillOther(g: Graph, m: Mini, i: nat, out: seq<nat>, j: nat)
    requires MiniOk(g, m) && i < |m.state| && !m.state[i].Held? && Room(m, i, |out|)
    requires Lists(out, Exact(g, m, i)) && j < |m.state|
    ensures SliceOk(g, Fill(m, i, out), j)
    ensures m.state[j].Held? ==> SameSlice(m, Fill(m, i, out), j)
  {
    hide Lists, PrunedSet, Apart;
    var m' := Fill(m, i, out);
    assert SliceOk(g, m, j) && Exact(g, m', j) == Exact(g, m, j);
    if j == i {
      OverwriteSlices(m.ctn, m.pos[i], out, 0, 0);
    } else if m.state[j].Held? {
      OverwriteSlices(m.ctn, m.pos[i], out, m.pos[j], m.pos[j] + m.state[j].len);
    }
  }

  // ----- rows -----

  /** Whatever correct row is intersected, the result is the pruned row. */
  lemma {:induction false} PruneAnyRow(g: Graph, inter: seq<nat>, bounded: bool, v: nat, inter0: seq<nat>, bounded0: bool,
                                       base: seq<nat>, out: seq<nat>)
    requires RowOk(g, inter0, bounded0, v, base)
    requires Elements(inter) <= Elements(inter0) && (bounded0 ==> bounded)
    requires Lists(out, (if bounded then Upper(v) else Free).Cut(Elements(inter) * Elements(base)))
    ensures Lists(out, PrunedSet(g, inter, bounded, v))
  {
    forall x | x in PrunedSet(g, inter, bounded, v) ensures x in base {
      assert x in Elements(inter0);
      assert x in PrunedSet(g, inter0, bounded0, v);
      assert x in Elements(base);
    }
    assert Elements(out) == PrunedSet(g, inter, bounded, v) by {
      forall x ensures x in Elements(out) <==> x in PrunedSet(g, inter, bounded, v) {
      }
    }
  }

  lemma {:induction false} GraphRowOk(g: Graph, inter: seq<nat>, bounded: bool, v: nat)
    requires g.Valid() && v < |g.adj|
    ensures RowOk(g, inter, bounded, v, g.adj[v])
  {
  }

  /** A parent's row answers for the child. */
  lemma {:induction false} RowForChild(g: Graph, inter: seq<nat>, bounded: bool, v: nat, inter0: seq<nat>,
                                       bounded0: bool, row: seq<nat>)
    requires RowOk(g, inter0, bounded0, v, row)
    requires Elements(inter) <= Elements(inter0) && (bounded0 ==> bounded)
    ensures RowOk(g, inter, bounded, v, row)
  {
    forall x | x in PrunedSet(g, inter, bounded, v) ensures x in row {
      assert x in Elements(inter0);
      assert x in PrunedSet(g, inter0, bounded0, v);
      assert x in Elements(row);
    }
  }

  lemma {:induction false} HeldRowOk(g: Graph, m: Mini, i: nat)
    requires MiniOk(g, m) && i < |m.state| && m.state[i].Held?
    ensures m.pos[i] + m.state[i].len <= |m.ctn| && Lists(Slice(m, i), Exact(g, m, i))
    ensures RowOk(g, m.inter, m.bounded, m.vertex[i], Slice(m, i))
  {
    assert SliceOk(g, m, i);
    var row := Slice(m, i);
    forall x | x in row ensures g.Edge(m.vertex[i], x) {
      assert x in Elements(row);
    }
  }

  lemma {:induction false} ReservedRoom(g: Graph, m: Mini, i: nat, out: seq<nat>)
    requires MiniOk(g, m) && i < |m.state| && m.state[i].WillPrune? && Lists(out, Exact(g, m, i))
    ensures Room(m, i, |out|)
  {
    assert SliceOk(g, m, i);
    ListsSize(out, Exact(g, m, i));
    forall j | i < j < |m.state| && m.state[j] != NotPrune ensures m.pos[i] + |out| <= m.pos[j] {
      assert End(m, i) <= m.pos[j];
    }
  }

  // ----- building -----

  /** Resize: the old contents stay in front. */
  function Grown(ctn: seq<nat>, need: nat): (r: seq<nat>)
    ensures |r| >= need && ctn <= r
  {
    if |ctn| >= need then ctn else ctn + seq(need - |ctn|, _ => 0)
  }

  function Start(vertex: seq<nat>, inter: seq<nat>, bounded: bool, parent: Option<nat>, link: seq<nat>): Mini {
    Mini(vertex, inter, bounded, parent, link, [], seq(|vertex| + 1, _ => 0), seq(|vertex|, _ => NotPrune))
  }

  /** Entries from i on are untouched, and the earlier slices end at or before `at`. */
  ghost predicate Front(g: Graph, m: Mini, i: nat, at: nat) {
    && MiniOk(g, m) && i <= |m.state|
    && (forall j :: i <= j < |m.state| ==> m.state[j] == NotPrune)
    && (forall j :: 0 <= j < i && m.state[j] != NotPrune ==> End(m, j) <= at)
    && (0 < i && m.state[i - 1].WillPrune? ==> m.pos[i] == at)
  }

  /** Prune entry i now, behind everything stored so far. */
  function PlaceHeld(m: Mini, i: nat, at: nat, out: seq<nat>): Mini
    requires i < |m.state| && i < |m.pos| && |out| <= |m.inter|
  {
    Fill(m.(ctn := Grown(m.ctn, at + |m.inter|), pos := m.pos[i := at]), i, out)
  }

  /** Reserve `room` for entry i, to be pruned when it is first asked for. */
  function PlaceReserved(m: Mini, i: nat, at: nat, room: nat): Mini
    requires i < |m.state| && i + 1 < |m.pos|
  {
    m.(ctn := Grown(m.ctn, at + room), pos := m.pos[i := at][i + 1 := at + room], state := m.state[i := WillPrune])
  }

  lemma {:induction false} StartOk(g: Graph, vertex: seq<nat>, inter: seq<nat>, bounded: bool, parent: Option<nat>,
                                   link: seq<nat>)
    requires Inputs(g, vertex, inter)
    ensures Front(g, Start(vertex, inter, bounded, parent, link), 0, 0)
  {
  }

  lemma {:induction false} FrontSkips(g: Graph, m: Mini, i: nat, j: nat, at: nat)
    requires Front(g, m, i, at) && i <= j <= |m.state|
    requires i < j || (0 < i && m.state[i - 1].WillPrune? ==> m.pos[i] == at)
    ensures Front(g, m, j, at)
  {
  }

  /** Growing the buffer and setting the position of an untouched entry change no slice. */
  lemma {:induction false} Moved(g: Graph, m: Mini, i: nat, at: nat, need: nat)
    requires Front(g, m, i, at) && i < |m.state| && at <= need
    ensures var m' := m.(ctn := Grown(m.ctn, need), pos := m.pos[i := at]);
      Front(g, m', i, at) && Room(m', i, need - at)
  {
    hide Lists, PrunedSet;
    var m' := m.(ctn := Grown(m.ctn, need), pos := m.pos[i := at]);
    forall j | 0 <= j < |m.state| ensures SliceOk(g, m', j) && (m.state[j] != NotPrune ==> End(m', j) == End(m, j)) {
      assert SliceOk(g, m, j) && Exact(g, m', j) == Exact(g, m, j);
      if m.state[j].Held? {
        assert m'.ctn[m'.pos[j]..m'.pos[j] + m'.state[j].len] == m.ctn[m.pos[j]..m.pos[j] + m.state[j].len];
      }
    }
    forall a, b | 0 <= a < b < |m'.state| && m'.state[a] != NotPrune && m'.state[b] != NotPrune
      ensures End(m', a) <= m'.pos[b]
    {
      assert End(m, a) <= m.pos[b];
    }
  }

  /** A pruned row is never longer than the intersect set. */
  lemma {:induction false} PrunedFits(g: Graph, inter: seq<nat>, bounded: bool, v: nat, out: seq<nat>)
    requires Sorted(inter) && Lists(out, PrunedSet(g, inter, bounded, v))
    ensures |out| <= |inter|
  {
    ListsSize(out, PrunedSet(g, inter, bounded, v));
    DistinctSize(inter);
    assert PrunedSet(g, inter, bounded, v) <= Elements(inter);
    SubsetSize(PrunedSet(g, inter, bounded, v), Elements(inter));
  }

  lemma {:induction false} PlaceHeldOk(g: Graph, m: Mini, i: nat, at: nat, out: seq<nat>)
    requires Front(g, m, i, at) && i < |m.state| && Lists(out, Exact(g, m, i))
    ensures |out| <= |m.inter| && Front(g, PlaceHeld(m, i, at, out), i + 1, at + |out|)
  {
    hide Lists, PrunedSet, Apart, SliceOk;
    PrunedFits(g, m.inter, m.bounded, m.vertex[i], out);
    var m1 := m.(ctn := Grown(m.ctn, at + |m.inter|), pos := m.pos[i := at]);
    Moved(g, m, i, at, at + |m.inter|);
    assert Exact(g, m1, i) == Exact(g, m, i);
    FillOk(g, m1, i, out);
    var m' := PlaceHeld(m, i, at, out);
    forall j | 0 <= j < i && m'.state[j] != NotPrune ensures End(m', j) <= at + |out| {
      assert End(m1, j) <= at && End(m', j) == End(m1, j);
    }
  }

  lemma {:induction false} PlaceReservedOk(g: Graph, m: Mini, i: nat, at: nat, room: nat)
    requires Front(g, m, i, at) && i < |m.state| && |Exact(g, m, i)| <= room
    ensures Front(g, PlaceReserved(m, i, at, room), i + 1, at + room)
  {
    hide Lists, PrunedSet, SliceOk;
    var m1 := m.(ctn := Grown(m.ctn, at + room), pos := m.pos[i := at]);
    Moved(g, m, i, at, at + room);
    var m' := PlaceReserved(m, i, at, room);
    forall j | 0 <= j < |m.state| ensures SliceOk(g, m', j) && (j < i && m.state[j] != NotPrune ==> End(m', j) == End(m1, j)) {
      ReservedOther(g, m, i, at, room, j);
    }
  }

  lemma {:induction false} ReservedOther(g: Graph, m: Mini, i: nat, at: nat, room: nat, j: nat)
    requires Sized(m) && i < |m.state| && j < |m.state| && |Exact(g, m, i)| <= room
    requires forall k :: i <= k < |m.state| ==> m.state[k] == NotPrune
    requires SliceOk(g, m.(ctn := Grown(m.ctn, at + room), pos := m.pos[i := at]), j)
    requires forall k :: 0 <= k < i && m.state[k].WillPrune? ==> k + 1 < i || m.pos[i] == at
    ensures var m1, m' := m.(ctn := Grown(m.ctn, at + room), pos := m.pos[i := at]), PlaceReserved(m, i, at, room);
      SliceOk(g, m', j) && (j < i && m.state[j] != NotPrune ==> End(m', j) == End(m1, j))
  {
    hide Lists, PrunedSet;
    var m1, m' := m.(ctn := Grown(m.ctn, at + room), pos := m.pos[i := at]), PlaceReserved(m, i, at, room);
    assert Exact(g, m', j) == Exact(g, m1, j) == Exact(g, m, j);
  }

  /** Every iterated vertex of m has its row pruned already. */
  ghost predicate IterHeld(m: Mini, iter: seq<nat>) {
    |m.state| == |m.vertex| && forall i :: 0 <= i < |m.vertex| && m.vertex[i] in iter ==> m.state[i].Held?
  }

  /** v's row is pruned when the minigraph is built: v is iterated by the next loop, or the
      walk has passed all iterated vertices and memory happens to hold v there. */
  ghost predicate PrunedAtBuild(v: nat, iter: seq<nat>, sameIter: bool, beyond: nat) {
    v in iter || (!sameIter && v == beyond && forall b :: 0 <= b < |iter| ==> iter[b] < v)
  }

  ghost predicate CostState(state: State, held: bool, prune: bool) {
    if held then state.Held? else state == if prune then WillPrune else NotPrune
  }

  /** What a new minigraph must bring along. */
  ghost predicate BuildInputs(g: Graph, store: seq<Mini>, vertex: seq<nat>, inter: seq<nat>, bounded: bool, parent: Option<nat>) {
    && Inputs(g, vertex, inter)
    && match parent
       case None => true
       case Some(p) =>
         && p < |store| && Elements(vertex) <= Elements(store[p].vertex)
         && Elements(inter) <= Elements(store[p].inter) && (store[p].bounded ==> bounded)
  }

  /** The finished minigraph was added behind the others. */
  ghost predicate Added(before: seq<Mini>, after: seq<Mini>, vertex: seq<nat>, inter: seq<nat>, bounded: bool,
                        parent: Option<nat>) {
    && |after| == |before| + 1 && StoreLater(before, after[..|before|])
    && SameInputs(after[|before|], vertex, inter, bounded, parent)
  }

  class MiniGraphStore {
    const g: Graph
    var minis: seq<Mini>

    ghost predicate Valid()
      reads this
    {
      g.Valid() && StoreOk(g, minis)
    }

    constructor (g: Graph)
      requires g.Valid()
      ensures Valid() && this.g == g && minis == []
    {
      this.g, minis := g, [];
    }

    /** The row of entry i: a held slice, the row passed through, or pruned now. */
    method N(k: nat, i: nat) returns (row: seq<nat>)
      requires Valid() && k < |minis| && i < |minis[k].vertex|
      modifies this
      ensures Valid() && StoreLater(old(minis), minis)
      ensures forall j :: k < j < |minis| ==> minis[j] == old(minis[j])
      ensures RowOk(g, minis[k].inter, minis[k].bounded, minis[k].vertex[i], row)
      ensures Elements(row) == AnswerSet(g, old(minis), k, i)
      ensures !minis[k].state[i].WillPrune?
      decreases k
    {
      hide StoreOk, MiniOk, Later, RowOk, LinkOk, Graph.Valid;
      ghost var old0 := minis;
      StoreRefl(minis);
      EntryInStore(g, minis, k, i);
      var m := minis[k];
      match m.state[i] {
        case Held(len) =>
          HeldRowOk(g, m, i);
          row := Slice(m, i);
        case NotPrune =>
          row := BaseRow(k, m, i);
        case WillPrune =>
          row := PruneEntry(k, m, i);
          ghost var mid := minis;
          EntryInStore(g, minis, k, i);
          ReservedRoom(g, m, i, row);
          FillOk(g, m, i, row);
          StorePut(g, minis, k, Fill(m, i, row));
          minis := minis[k := Fill(m, i, row)];
          StoreTrans(old0, mid, minis);
          EntryInStore(g, minis, k, i);
          HeldRowOk(g, minis[k], i);
      }
    }

    /** The row that minigraph k starts from: its parent's answer or the graph's row.
        k may still be under construction. */
    method BaseRow(k: nat, m: Mini, i: nat) returns (row: seq<nat>)
      requires Valid() && k <= |minis| && LinkOk(minis, k, m) && i < |m.vertex| && m.vertex[i] < |g.adj|
      modifies this
      ensures Valid() && StoreLater(old(minis), minis)
      ensures forall j :: k <= j < |minis| ==> minis[j] == old(minis[j])
      ensures RowOk(g, m.inter, m.bounded, m.vertex[i], row)
      ensures Elements(row) == BaseSet(g, old(minis), k, m, i)
      decreases k, 0
    {
      hide StoreOk, MiniOk, Later, RowOk, Graph.Valid;
      StoreRefl(minis);
      match m.parent {
        case Some(p) =>
          row := N(p, m.link[i]);
          StoreKept(old(minis), minis, p);
          RowForChild(g, m.inter, m.bounded, m.vertex[i], minis[p].inter, minis[p].bounded, row);
        case None =>
          GraphRowOk(g, m.inter, m.bounded, m.vertex[i]);
          row := g.adj[m.vertex[i]];
      }
    }

    /** The pruned row of entry i, wherever its base row comes from. */
    method PruneEntry(k: nat, m: Mini, i: nat) returns (out: seq<nat>)
      requires Valid() && k <= |minis| && LinkOk(minis, k, m) && Inputs(g, m.vertex, m.inter) && i < |m.vertex|
      modifies this
      ensures Valid() && StoreLater(old(minis), minis)
      ensures forall j :: k <= j < |minis| ==> minis[j] == old(minis[j])
      ensures Lists(out, Exact(g, m, i))
      decreases k, 1
    {
      hide StoreOk, Later, RowOk, Graph.Valid, LinkOk;
      var base := BaseRow(k, m, i);
      BaseSorted(g, m.inter, m.bounded, m.vertex[i], base);
      out := Intersect(m.inter, base, if m.bounded then Upper(m.vertex[i]) else Free);
      PruneAnyRow(g, m.inter, m.bounded, m.vertex[i], m.inter, m.bounded, base, out);
    }

    /** m_mg->indices(m_vertex): where the parent keeps each vertex. */
    method LinkTo(parent: Option<nat>, vertex: seq<nat>, sameBegin: bool) returns (link: seq<nat>)
      requires Valid() && Sorted(vertex)
      requires parent.Some? ==> parent.value < |minis| && Elements(vertex) <= Elements(minis[parent.value].vertex)
      requires parent.Some? && sameBegin ==> vertex <= minis[parent.value].vertex
      ensures parent.Some? ==> |link| == |vertex| && forall i :: 0 <= i < |link| ==>
        link[i] < |minis[parent.value].vertex| && minis[parent.value].vertex[link[i]] == vertex[i]
    {
      link := [];
      if parent.Some? {
        assert MiniOk(g, minis[parent.value]);
        link := GetIndices(minis[parent.value].vertex, vertex, sameBegin);
        LocatesEach(link, minis[parent.value].vertex, vertex);
      }
    }

    /** Eager: every entry is pruned during the build. */
    method BuildEager(parent: Option<nat>, vertex: seq<nat>, inter: seq<nat>, bounded: bool, sameParent: bool)
      requires Valid() && BuildInputs(g, minis, vertex, inter, bounded, parent)
      requires parent.Some? && sameParent ==> vertex <= minis[parent.value].vertex
      modifies this
      ensures Valid() && Added(old(minis), minis, vertex, inter, bounded, parent)
      ensures IterHeld(minis[|old(minis)|], vertex)
    {
      hide StoreOk, Later, Front, Exact, MiniOk, Lists, Graph.Valid, Overwrite, Grown, Slice;
      ghost var before := minis;
      var link := LinkTo(parent, vertex, sameParent);
      var m := Start(vertex, inter, bounded, parent, link);
      var at: nat := 0;
      StartOk(g, vertex, inter, bounded, parent, link);
      StoreRefl(minis);
      for i := 0 to |vertex|
        invariant Valid() && StoreLater(before, minis) && Front(g, m, i, at)
        invariant SameInputs(m, vertex, inter, bounded, parent) && LinkOk(minis, |minis|, m)
        invariant |m.state| == |vertex| && |m.pos| == |vertex| + 1
        invariant forall j :: 0 <= j < i ==> m.state[j].Held?
      {
        ghost var mid, m0 := minis, m;
        var out := PruneEntry(|minis|, m, i);
        StoreTrans(before, mid, minis);
        PlaceHeldOk(g, m, i, at, out);
        m := PlaceHeld(m, i, at, out);
        LinkStays(mid, minis, |minis|, m0, m);
        at := at + |out|;
      }
      FinishBuild(g, before, minis, m, |vertex|, at);
      minis := minis + [m];
    }

    /** Lazy: the rows of the next loop are pruned, all others pass through. */
    method BuildLazy(parent: Option<nat>, vertex: seq<nat>, inter: seq<nat>, iter: seq<nat>, bounded: bool,
                     sameParent: bool, sameIter: bool)
      requires Valid() && BuildInputs(g, minis, vertex, inter, bounded, parent) && Sorted(iter)
      requires parent.Some? && sameParent ==> vertex <= minis[parent.value].vertex
      requires sameIter ==> iter <= vertex || vertex <= iter
      modifies this
      ensures Valid() && Added(old(minis), minis, vertex, inter, bounded, parent)
      ensures IterHeld(minis[|old(minis)|], iter)
      ensures forall i :: 0 <= i < |vertex| && vertex[i] !in iter ==> minis[|old(minis)|].state[i].NotPrune?
    {
      hide StoreOk, Later, Front, Exact, MiniOk, Lists, Graph.Valid, Overwrite, Grown, Slice;
      ghost var before := minis;
      var indices := GetIndices(vertex, iter, sameIter);
      IndicesInRange(indices, vertex, iter);
      var link := LinkTo(parent, vertex, sameParent);
      var m := Start(vertex, inter, bounded, parent, link);
      var numEdges: nat := 0;
      ghost var front: nat := 0;
      StartOk(g, vertex, inter, bounded, parent, link);
      StoreRefl(minis);
      for t := 0 to |indices|
        invariant Valid() && StoreLater(before, minis) && Front(g, m, front, numEdges)
        invariant SameInputs(m, vertex, inter, bounded, parent) && LinkOk(minis, |minis|, m)
        invariant |m.state| == |vertex| && |m.pos| == |vertex| + 1
        invariant front <= |vertex| && (t < |indices| ==> front <= indices[t])
        invariant forall j :: 0 <= j < |vertex| ==> if j in indices[..t] then m.state[j].Held? else m.state[j].NotPrune?
      {
        var i := indices[t];
        ghost var mid, m0 := minis, m;
        FrontMoves(g, m, front, i, numEdges);
        var out := PruneEntry(|minis|, m, i);
        StoreTrans(before, mid, minis);
        PlaceHeldOk(g, m, i, numEdges, out);
        m := PlaceHeld(m, i, numEdges, out);
        LinkStays(mid, minis, |minis|, m0, m);
        assert indices[..t + 1] == indices[..t] + [i];
        numEdges := numEdges + |out|;
        front := i + 1;
      }
      assert indices[..|indices|] == indices;
      FinishBuild(g, before, minis, m, front, numEdges);
      minis := minis + [m];
    }

    /** What Online reserves for entry i: the smaller of the intersect set and the length
        of the row it will be pruned from, if that is known. */
    method RoomFor(m: Mini, i: nat) returns (room: nat)
      requires Valid() && LinkOk(minis, |minis|, m) && Inputs(g, m.vertex, m.inter) && i < |m.vertex|
      ensures |Exact(g, m, i)| <= room
    {
      var size := |m.inter|;
      match m.parent {
        case None =>
          var degree := 0;
          if m.bounded {
            degree := BoundedCnt(g.adj[m.vertex[i]], m.vertex[i]);
          } else {
            degree := |g.adj[m.vertex[i]]|;
          }
          FewInRow(g, m.inter, m.bounded, m.vertex[i], degree);
          room := if size < degree then size else degree;
        case Some(p) =>
          assert MiniOk(g, minis[p]);
          FewInParent(g, m, minis[p], i);
          room := match minis[p].state[m.link[i]]
            case Held(len) => if size < len then size else len
            case _ => size;
      }
    }

    /** Online: room is reserved for every entry, and the rows of the next loop are pruned. */
    method BuildOnline(parent: Option<nat>, vertex: seq<nat>, inter: seq<nat>, iter: seq<nat>, bounded: bool,
                       sameParent: bool, sameIter: bool)
      requires Valid() && BuildInputs(g, minis, vertex, inter, bounded, parent) && Sorted(iter)
      requires parent.Some? && sameParent ==> vertex <= minis[parent.value].vertex
      requires sameIter ==> iter <= vertex || vertex <= iter
      modifies this
      ensures Valid() && Added(old(minis), minis, vertex, inter, bounded, parent)
      ensures IterHeld(minis[|old(minis)|], iter)
      ensures forall i :: 0 <= i < |vertex| && vertex[i] !in iter ==> minis[|old(minis)|].state[i].WillPrune?
    {
      hide StoreOk, Later, Front, Exact, MiniOk, Lists, Graph.Valid, Overwrite, Grown, Slice;
      ghost var before := minis;
      var indices := GetIndices(vertex, iter, sameIter);
      IndicesInRange(indices, vertex, iter);
      var link := LinkTo(parent, vertex, sameParent);
      var m := Start(vertex, inter, bounded, parent, link);
      var at: nat := 0;
      StartOk(g, vertex, inter, bounded, parent, link);
      StoreRefl(minis);
      for i := 0 to |vertex|
        invariant minis == before && Front(g, m, i, at)
        invariant SameInputs(m, vertex, inter, bounded, parent) && LinkOk(minis, |minis|, m)
        invariant |m.state| == |vertex| && |m.pos| == |vertex| + 1
        invariant forall j :: 0 <= j < i ==> m.state[j].WillPrune?
      {
        ghost var m0 := m;
        var room := RoomFor(m, i);
        PlaceReservedOk(g, m, i, at, room);
        m := PlaceReserved(m, i, at, room);
        LinkStays(minis, minis, |minis|, m0, m);
        at := at + room;
      }
      FrontIsOk(g, m, |vertex|, at);
      for t := 0 to |indices|
        invariant Valid() && StoreLater(before, minis) && MiniOk(g, m)
        invariant SameInputs(m, vertex, inter, bounded, parent) && LinkOk(minis, |minis|, m)
        invariant |m.state| == |vertex| && |m.pos| == |vertex| + 1
        invariant forall j :: 0 <= j < |vertex| ==> if j in indices[..t] then m.state[j].Held? else m.state[j].WillPrune?
      {
        var i := indices[t];
        ghost var mid, m0 := minis, m;
        var out := PruneEntry(|minis|, m, i);
        StoreTrans(before, mid, minis);
        NotBefore(indices, t);
        ReservedRoom(g, m, i, out);
        FillOk(g, m, i, out);
        m := Fill(m, i, out);
        LinkStays(mid, minis, |minis|, m0, m);
        assert indices[..t + 1] == indices[..t] + [i];
      }
      assert indices[..|indices|] == indices;
      FinishStore(g, before, minis, m);
      minis := minis + [m];
    }

    /** One entry: pruned now, room reserved to prune it later, or passed through. */
    method CostEntry(m0: Mini, i: nat, at0: nat, hit: bool, prune: bool) returns (m: Mini, at: nat)
      requires Valid() && Front(g, m0, i, at0) && LinkOk(minis, |minis|, m0)
      requires Sized(m0) && Inputs(g, m0.vertex, m0.inter) && i < |m0.vertex|
      modifies this
      ensures Valid() && StoreLater(old(minis), minis) && LinkOk(minis, |minis|, m)
      ensures Front(g, m, i + 1, at) && Sized(m) && SameInputs(m, m0.vertex, m0.inter, m0.bounded, m0.parent)
      ensures forall j :: 0 <= j < |m.state| && j != i ==> m.state[j] == m0.state[j]
      ensures CostState(m.state[i], hit, prune)
    {
      hide StoreOk, Later, Front, Exact, MiniOk, Lists, Graph.Valid, Overwrite, Grown, Slice;
      m, at := m0, at0;
      ghost var before := minis;
      StoreRefl(minis);
      if hit {
        var out := PruneEntry(|minis|, m, i);
        PlaceHeldOk(g, m, i, at, out);
        m := PlaceHeld(m, i, at, out);
        at := at + |out|;
      } else if prune {
        var degree := |g.adj[m.vertex[i]]|;
        var room := if |m.inter| < degree then |m.inter| else degree;
        FewInDegree(g, m, i);
        PlaceReservedOk(g, m, i, at, room);
        m := PlaceReserved(m, i, at, room);
        at := at + room;
      } else {
        SkipOk(g, m, i, at);
      }
      LinkStays(before, minis, |minis|, m0, m);
    }

    /** CostModel: the rows of the next loop are pruned; for every other row an oracle says
        whether room is reserved to prune it on demand or whether it passes through. Beyond
        the end of `iter` the walk compares with whatever memory holds. */
    method BuildCostModel(parent: Option<nat>, vertex: seq<nat>, inter: seq<nat>, iter: seq<nat>, bounded: bool,
                          sameParent: bool, sameIter: bool, shouldPrune: seq<bool>, beyond: nat)
      requires Valid() && BuildInputs(g, minis, vertex, inter, bounded, parent) && Sorted(iter)
      requires parent.Some? && sameParent ==> vertex <= minis[parent.value].vertex
      requires sameIter ==> iter <= vertex
      requires |shouldPrune| == |vertex|
      modifies this
      ensures Valid() && Added(old(minis), minis, vertex, inter, bounded, parent)
      ensures IterHeld(minis[|old(minis)|], iter)
      ensures forall i :: 0 <= i < |vertex| ==>
        CostState(minis[|old(minis)|].state[i], PrunedAtBuild(vertex[i], iter, sameIter, beyond), shouldPrune[i])
    {
      hide StoreOk, Later, Front, Exact, MiniOk, Lists, Graph.Valid, Overwrite, Grown, Slice;
      ghost var before := minis;
      var link := LinkTo(parent, vertex, sameParent);
      var m := Start(vertex, inter, bounded, parent, link);
      var at: nat, r: nat := 0, 0;
      StartOk(g, vertex, inter, bounded, parent, link);
      StoreRefl(minis);
      for i := 0 to |vertex|
        invariant Valid() && StoreLater(before, minis) && Front(g, m, i, at)
        invariant SameInputs(m, vertex, inter, bounded, parent) && LinkOk(minis, |minis|, m)
        invariant |m.state| == |vertex| && |m.pos| == |vertex| + 1
        invariant r <= |iter| && (i < |vertex| ==> forall b :: 0 <= b < r ==> iter[b] < vertex[i])
        invariant forall j :: 0 <= j < i ==>
          CostState(m.state[j], PrunedAtBuild(vertex[j], iter, sameIter, beyond), shouldPrune[j])
      {
        ghost var mid := minis;
        var hit: bool;
        if sameIter {
          hit := i < |iter|;
          FrontOf(vertex, iter, i);
        } else {
          hit, r := Advance(iter, r, vertex, i, beyond);
        }
        m, at := CostEntry(m, i, at, hit, shouldPrune[i]);
        StoreTrans(before, mid, minis);
      }
      FinishBuild(g, before, minis, m, |vertex|, at);
      minis := minis + [m];
    }
  }

  /** advance: moves the pointer to the first iterated vertex not below vertex[i]. */
  method Advance(iter: seq<nat>, r0: nat, vertex: seq<nat>, i: nat, beyond: nat) returns (hit: bool, r: nat)
    requires Sorted(iter) && Sorted(vertex) && r0 <= |iter| && i < |vertex|
    requires forall b :: 0 <= b < r0 ==> iter[b] < vertex[i]
    ensures r <= |iter| && forall b :: 0 <= b < r ==> iter[b] < vertex[i]
    ensures hit <==> PrunedAtBuild(vertex[i], iter, false, beyond)
  {
    r := r0;
    while r < |iter| && iter[r] < vertex[i]
      invariant r <= |iter| && forall b :: 0 <= b < r ==> iter[b] < vertex[i]
    {
      r := r + 1;
    }
    hit := (if r < |iter| then iter[r] else beyond) == vertex[i];
    if vertex[i] in iter {
      var b :| 0 <= b < |iter| && iter[b] == vertex[i];
      InOrderAt(iter, b, r);
    }
  }

  lemma {:induction false} FrontOf(vertex: seq<nat>, iter: seq<nat>, i: nat)
    requires Sorted(vertex) && iter <= vertex && i < |vertex|
    ensures vertex[i] in iter <==> i < |iter|
  {
    if vertex[i] in iter {
      var b :| 0 <= b < |iter| && iter[b] == vertex[i];
      InOrderAt(vertex, b, i);
      InOrderAt(vertex, i, b);
    }
  }

  lemma {:induction false} SkipOk(g: Graph, m: Mini, i: nat, at: nat)
    requires Front(g, m, i, at) && i < |m.state|
    ensures Front(g, m, i + 1, at) && m.state[i] == NotPrune
  {
  }

  lemma {:induction false} FrontIsOk(g: Graph, m: Mini, i: nat, at: nat)
    requires Front(g, m, i, at)
    ensures MiniOk(g, m)
  {
  }

  lemma {:induction false} NotBefore(s: seq<nat>, t: nat)
    requires Sorted(s) && t < |s|
    ensures s[t] !in s[..t]
  {
  }

  /** The pruned row fits in the intersect set and in the (bounded) row. */
  lemma {:induction false} FewInRow(g: Graph, inter: seq<nat>, bounded: bool, v: nat, degree: nat)
    requires g.Valid() && Sorted(inter) && v < |g.adj|
    requires degree == if bounded then |Upper(v).Cut(Elements(g.adj[v]))| else |g.adj[v]|
    ensures |PrunedSet(g, inter, bounded, v)| <= |inter| && |PrunedSet(g, inter, bounded, v)| <= degree
  {
    var p, row := PrunedSet(g, inter, bounded, v), Elements(g.adj[v]);
    DistinctSize(inter);
    DistinctSize(g.adj[v]);
    assert p <= Elements(inter);
    SubsetSize(p, Elements(inter));
    if bounded {
      assert p <= Upper(v).Cut(row);
      SubsetSize(p, Upper(v).Cut(row));
    } else {
      assert p <= row;
      SubsetSize(p, row);
    }
  }

  lemma {:induction false} FewInDegree(g: Graph, m: Mini, i: nat)
    requires g.Valid() && Inputs(g, m.vertex, m.inter) && i < |m.vertex|
    ensures |Exact(g, m, i)| <= |m.inter| && |Exact(g, m, i)| <= |g.adj[m.vertex[i]]|
  {
    var v := m.vertex[i];
    FewInRow(g, m.inter, m.bounded, v, if m.bounded then |Upper(v).Cut(Elements(g.adj[v]))| else |g.adj[v]|);
    FewBelow(g, v);
  }

  lemma {:induction false} FewBelow(g: Graph, v: nat)
    requires g.Valid() && v < |g.adj|
    ensures |Upper(v).Cut(Elements(g.adj[v]))| <= |g.adj[v]|
  {
    DistinctSize(g.adj[v]);
    SubsetSize(Upper(v).Cut(Elements(g.adj[v])), Elements(g.adj[v]));
  }

  /** ... and in the row that the parent holds. */
  lemma {:induction false} FewInParent(g: Graph, m: Mini, p: Mini, i: nat)
    requires MiniOk(g, p) && Sorted(m.inter) && i < |m.vertex| && i < |m.link| && m.link[i] < |p.vertex|
    requires p.vertex[m.link[i]] == m.vertex[i] && Elements(m.inter) <= Elements(p.inter) && (p.bounded ==> m.bounded)
    ensures |Exact(g, m, i)| <= |m.inter|
    ensures p.state[m.link[i]].Held? ==> |Exact(g, m, i)| <= p.state[m.link[i]].len
  {
    DistinctSize(m.inter);
    assert Exact(g, m, i) <= Elements(m.inter);
    SubsetSize(Exact(g, m, i), Elements(m.inter));
    if p.state[m.link[i]].Held? {
      HeldRowOk(g, p, m.link[i]);
      var row := Slice(p, m.link[i]);
      ListsSize(row, Exact(g, p, m.link[i]));
      forall x | x in Exact(g, m, i) ensures x in Exact(g, p, m.link[i]) {
        assert x in Elements(p.inter);
      }
      SubsetSize(Exact(g, m, i), Exact(g, p, m.link[i]));
    }
  }

  lemma {:induction false} FinishStore(g: Graph, before: seq<Mini>, store: seq<Mini>, m: Mini)
    requires StoreOk(g, store) && StoreLater(before, store) && MiniOk(g, m) && LinkOk(store, |store|, m)
    ensures StoreOk(g, store + [m]) && |before| == |store| && (store + [m])[..|store|] == store
  {
    var after := store + [m];
    forall k | 0 <= k < |after| ensures MiniOk(g, after[k]) && LinkOk(after, k, after[k]) {
      LinkAppends(store, m, k);
    }
  }

  ghost predicate SameInputs(m: Mini, vertex: seq<nat>, inter: seq<nat>, bounded: bool, parent: Option<nat>) {
    m.vertex == vertex && m.inter == inter && m.bounded == bounded && m.parent == parent
  }

  /** Building changes neither the parent nor the links of the new minigraph. */
  lemma {:induction false} LinkStays(a: seq<Mini>, b: seq<Mini>, k: nat, m: Mini, m': Mini)
    requires StoreLater(a, b) && LinkOk(a, k, m)
    requires m'.parent == m.parent && m'.link == m.link && m'.vertex == m.vertex && m'.inter == m.inter && m'.bounded == m.bounded
    ensures LinkOk(b, k, m')
  {
    if m.parent.Some? {
      assert Later(a[m.parent.value], b[m.parent.value]);
    }
  }

  lemma {:induction false} FrontMoves(g: Graph, m: Mini, i: nat, j: nat, at: nat)
    requires Front(g, m, i, at) && i <= j <= |m.state| && (forall a :: 0 <= a < |m.state| ==> !m.state[a].WillPrune?)
    ensures Front(g, m, j, at)
  {
    FrontSkips(g, m, i, j, at);
  }

  lemma {:induction false} FinishBuild(g: Graph, before: seq<Mini>, store: seq<Mini>, m: Mini, i: nat, at: nat)
    requires StoreOk(g, store) && StoreLater(before, store) && Front(g, m, i, at) && LinkOk(store, |store|, m)
    ensures StoreOk(g, store + [m]) && |before| == |store| && (store + [m])[..|store|] == store
  {
    FinishStore(g, before, store, m);
  }

  lemma {:induction false} LinkAppends(store: seq<Mini>, m: Mini, k: nat)
    requires k <= |store| && LinkOk(store, k, (store + [m])[k])
    ensures LinkOk(store + [m], k, (store + [m])[k])
  {
  }

  lemma {:induction false} IndicesInRange(out: seq<nat>, vertices: seq<nat>, iter: seq<nat>)
    requires Locates(out, vertices, iter)
    ensures Sorted(out) && forall t :: 0 <= t < |out| ==> out[t] < |vertices|
    ensures forall p: nat :: p in out <==> p < |vertices| && vertices[p] in iter
  {
    forall p: nat ensures p in out <==> p in Elements(out) {}
    forall t | 0 <= t < |out| ensures out[t] < |vertices| {
      assert out[t] in out;
    }
  }

  lemma {:induction false} StoreKept(a: seq<Mini>, b: seq<Mini>, p: nat)
    requires StoreLater(a, b) && p < |a|
    ensures b[p].inter == a[p].inter && b[p].bounded == a[p].bounded && b[p].vertex == a[p].vertex
  {
    assert Later(a[p], b[p]);
  }

  lemma {:induction false} BaseSorted(g: Graph, inter: seq<nat>, bounded: bool, v: nat, row: seq<nat>)
    requires RowOk(g, inter, bounded, v, row)
    ensures Sorted(row)
  {
  }
}
