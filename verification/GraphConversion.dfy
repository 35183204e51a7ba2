/** graph_converter.cpp, from the edge list onward: renumbering, sorting, compressed rows,
    offsets and triangle counts. */
module GraphConversion {
  import opened Patterns
  import opened Ir

  const RESIZE_INCREMENT := 4096

  // ----- renumbering -----

  /** idMap numbers exactly the ids seen, 0..next - 1, each number once. */
  ghost predicate Numbering(idMap: seq<Option<nat>>, next: nat) {
    && (forall i :: 0 <= i < |idMap| && idMap[i].Some? ==> idMap[i].value < next)
    && (forall i, j :: 0 <= i < j < |idMap| && idMap[i].Some? && idMap[j].Some? ==> idMap[i].value != idMap[j].value)
    && (forall x: nat :: x < next ==> NumberUsed(idMap, x))
  }

  ghost predicate NumberUsed(idMap: seq<Option<nat>>, x: nat) {
    exists i :: 0 <= i < |idMap| && idMap[i] == Some(x)
  }

  predicate Numbered(idMap: seq<Option<nat>>, id: nat) {
    id < |idMap| && idMap[id].Some?
  }

  /** Numbers once given stay. */
  ghost predicate Extends(a: seq<Option<nat>>, b: seq<Option<nat>>) {
    |a| <= |b| && forall i :: 0 <= i < |a| && a[i].Some? ==> b[i] == a[i]
  }

  method GetId(idMap0: seq<Option<nat>>, id: nat, next0: nat) returns (idMap: seq<Option<nat>>, next: nat, newId: nat)
    requires Numbering(idMap0, next0)
    ensures Numbering(idMap, next) && Extends(idMap0, idMap) && next0 <= next
    ensures Numbered(idMap, id) && idMap[id] == Some(newId)
    ensures forall i: nat :: Numbered(idMap, i) <==> Numbered(idMap0, i) || i == id
    ensures if Numbered(idMap0, id) then next == next0 else next == next0 + 1 && newId == next0
  {
    idMap, next := idMap0, next0;
    if |idMap| <= id {
      idMap := idMap + seq(id + RESIZE_INCREMENT - |idMap|, _ => None);
      NumberingGrows(idMap0, idMap, next);
    }
    if idMap[id].None? {
      NumberingAdds(idMap, id, next);
      idMap := idMap[id := Some(next)];
      next := next + 1;
    }
    newId := idMap[id].value;
  }

  lemma {:induction false} NumberingGrows(a: seq<Option<nat>>, b: seq<Option<nat>>, next: nat)
    requires Numbering(a, next) && a <= b && forall i :: |a| <= i < |b| ==> b[i].None?
    ensures Numbering(b, next)
  {
    forall x: nat | x < next ensures NumberUsed(b, x) {
      assert NumberUsed(a, x);
      var i :| 0 <= i < |a| && a[i] == Some(x);
      assert b[i] == Some(x);
    }
  }

  lemma {:induction false} NumberingAdds(a: seq<Option<nat>>, id: nat, next: nat)
    requires Numbering(a, next) && id < |a| && a[id].None?
    ensures Numbering(a[id := Some(next)], next + 1)
  {
    var b := a[id := Some(next)];
    forall x: nat | x < next + 1 ensures NumberUsed(b, x) {
      if x == next {
        assert b[id] == Some(next);
      } else {
        assert NumberUsed(a, x);
        var i :| 0 <= i < |a| && a[i] == Some(x);
        assert b[i] == Some(x);
      }
    }
  }

  /** Both directions of the renumbered input edges, loops left out. */
  ghost predicate InputEdge(input: seq<Pair>, idMap: seq<Option<nat>>, k: nat, u: nat, v: nat) {
    && k < |input| && input[k].0 != input[k].1
    && Numbered(idMap, input[k].0) && Numbered(idMap, input[k].1)
    && ((idMap[input[k].0] == Some(u) && idMap[input[k].1] == Some(v))
        || (idMap[input[k].0] == Some(v) && idMap[input[k].1] == Some(u)))
  }

  ghost predicate HasInputEdge(input: seq<Pair>, idMap: seq<Option<nat>>, u: nat, v: nat) {
    exists k: nat :: InputEdge(input, idMap, k, u, v)
  }

  /** edges lists the input's edges in both directions; exactly the ends are numbered. */
  ghost predicate Read(input: seq<Pair>, idMap: seq<Option<nat>>, next: nat, edges: seq<Pair>) {
    && Numbering(idMap, next)
    && (forall k :: 0 <= k < |input| && input[k].0 != input[k].1 ==>
          Numbered(idMap, input[k].0) && Numbered(idMap, input[k].1))
    && (forall x: nat :: Numbered(idMap, x) ==> IsEnd(input, x))
    && (forall u: nat, v: nat :: (u, v) in edges <==> HasInputEdge(input, idMap, u, v))
  }

  ghost predicate IsEnd(input: seq<Pair>, x: nat) {
    exists k :: 0 <= k < |input| && input[k].0 != input[k].1 && (input[k].0 == x || input[k].1 == x)
  }

  lemma {:induction false} EdgeStays(input: seq<Pair>, more: Pair, a: seq<Option<nat>>, b: seq<Option<nat>>, u: nat, v: nat)
    requires Extends(a, b)
    requires forall k :: 0 <= k < |input| && input[k].0 != input[k].1 ==> Numbered(a, input[k].0) && Numbered(a, input[k].1)
    ensures HasInputEdge(input + [more], b, u, v) <==>
      HasInputEdge(input, a, u, v) || InputEdge(input + [more], b, |input|, u, v)
  {
    var longer := input + [more];
    if HasInputEdge(longer, b, u, v) {
      var k: nat :| InputEdge(longer, b, k, u, v);
      if k < |input| {
        assert longer[k] == input[k];
        assert InputEdge(input, a, k, u, v);
      }
    }
    if HasInputEdge(input, a, u, v) {
      var k: nat :| InputEdge(input, a, k, u, v);
      assert longer[k] == input[k];
      assert InputEdge(longer, b, k, u, v);
    }
  }

  lemma {:induction false} EndStays(input: seq<Pair>, more: Pair, x: nat)
    ensures IsEnd(input + [more], x) <==> IsEnd(input, x) || (more.0 != more.1 && (more.0 == x || more.1 == x))
  {
    var longer := input + [more];
    if IsEnd(input, x) {
      var k :| 0 <= k < |input| && input[k].0 != input[k].1 && (input[k].0 == x || input[k].1 == x);
      assert longer[k] == input[k];
    }
    if more.0 != more.1 && (more.0 == x || more.1 == x) {
      assert longer[|input|] == more;
    }
    if IsEnd(longer, x) {
      var k :| 0 <= k < |longer| && longer[k].0 != longer[k].1 && (longer[k].0 == x || longer[k].1 == x);
      assert k < |input| ==> longer[k] == input[k];
    }
  }

  /** The ends of the edges, loops left out, in the order of their first occurrence. */
  ghost function Seen(input: seq<Pair>): seq<nat> {
    if |input| == 0 then
      []
    else
      var before, e := Seen(input[..|input| - 1]), input[|input| - 1];
      if e.0 == e.1 then before else Noted(Noted(before, e.0), e.1)
  }

  ghost function Noted(seen: seq<nat>, id: nat): seq<nat> {
    if id in seen then seen else seen + [id]
  }

  /** The k-th id seen has number k, and no other id has one. */
  ghost predicate InOrderSeen(seen: seq<nat>, idMap: seq<Option<nat>>, next: nat) {
    && |seen| == next
    && (forall k: nat :: k < |seen| ==> seen[k] < |idMap| && idMap[seen[k]] == Some(k))
    && forall id: nat :: Numbered(idMap, id) <==> id in seen
  }

  lemma {:induction false} SeenStep(seen: seq<nat>, a: seq<Option<nat>>, n: nat, id: nat, b: seq<Option<nat>>,
                                    next: nat, newId: nat)
    requires InOrderSeen(seen, a, n) && Extends(a, b) && Numbered(b, id) && b[id] == Some(newId)
    requires forall i: nat :: Numbered(b, i) <==> Numbered(a, i) || i == id
    requires if Numbered(a, id) then next == n else next == n + 1 && newId == n
    ensures InOrderSeen(Noted(seen, id), b, next)
  {
    var s := Noted(seen, id);
    forall k: nat | k < |s| ensures s[k] < |b| && b[s[k]] == Some(k) {
      assert k < |seen| ==> a[seen[k]] == Some(k);
    }
  }

  /** One edge that is no loop: both ends numbered, both directions appended. */
  method ReadEdge(ghost input: seq<Pair>, e: Pair, idMap0: seq<Option<nat>>, next0: nat, edges0: seq<Pair>)
    returns (idMap: seq<Option<nat>>, next: nat, edges: seq<Pair>)
    requires e.0 != e.1 && Read(input, idMap0, next0, edges0) && InOrderSeen(Seen(input), idMap0, next0)
    ensures Read(input + [e], idMap, next, edges)
    ensures InOrderSeen(Noted(Noted(Seen(input), e.0), e.1), idMap, next)
  {
    hide Read, Numbering, InOrderSeen, Extends, Seen, Noted;
    ReadNumbers(input, idMap0, next0, edges0);
    var src, dst;
    idMap, next, src := GetId(idMap0, e.0, next0);
    ghost var mid, n1 := idMap, next;
    SeenStep(Seen(input), idMap0, next0, e.0, mid, n1, src);
    idMap, next, dst := GetId(idMap, e.1, next);
    SeenStep(Noted(Seen(input), e.0), mid, n1, e.1, idMap, next, dst);
    edges := edges0 + [(src, dst)] + [(dst, src)];
    ReadOne(input, e, idMap0, next0, mid, idMap, next, edges0, src, dst);
  }

  lemma {:induction false} SeenGrows(input: seq<Pair>, e: Pair)
    ensures Seen(input + [e]) == if e.0 == e.1 then Seen(input) else Noted(Noted(Seen(input), e.0), e.1)
  {
    assert (input + [e])[..|input|] == input;
  }

  /** Every end of an edge gets the next number when it is first read. */
  method ReadEdges(input: seq<Pair>) returns (idMap: seq<Option<nat>>, next: nat, edges: seq<Pair>)
    ensures Read(input, idMap, next, edges)
    ensures InOrderSeen(Seen(input), idMap, next)
  {
    hide Read, InOrderSeen, Seen, Noted;
    idMap, next, edges := [], 0, [];
    NothingRead();
    for k := 0 to |input|
      invariant Read(input[..k], idMap, next, edges)
      invariant InOrderSeen(Seen(input[..k]), idMap, next)
    {
      var e := input[k];
      assert input[..k + 1] == input[..k] + [e];
      SeenGrows(input[..k], e);
      if e.0 != e.1 {
        idMap, next, edges := ReadEdge(input[..k], e, idMap, next, edges);
      } else {
        ReadLoop(input[..k], e, idMap, next, edges);
      }
    }
    assert input[..|input|] == input;
  }

  lemma {:induction false} ReadLoop(input: seq<Pair>, e: Pair, idMap: seq<Option<nat>>, next: nat, edges: seq<Pair>)
    requires Read(input, idMap, next, edges) && e.0 == e.1
    ensures Read(input + [e], idMap, next, edges)
  {
    hide HasInputEdge, IsEnd, Numbering;
    forall x: nat ensures IsEnd(input + [e], x) <==> IsEnd(input, x) {
      EndStays(input, e, x);
    }
    forall u: nat, v: nat ensures HasInputEdge(input + [e], idMap, u, v) <==> HasInputEdge(input, idMap, u, v) {
      EdgeStays(input, e, idMap, idMap, u, v);
    }
  }

  lemma {:induction false} NothingRead()
    ensures Read([], [], 0, []) && InOrderSeen(Seen([]), [], 0)
  {
  }

  lemma {:induction false} ReadNumbers(input: seq<Pair>, idMap: seq<Option<nat>>, next: nat, edges: seq<Pair>)
    requires Read(input, idMap, next, edges)
    ensures Numbering(idMap, next)
  {
  }

  lemma {:induction false} ReadOne(input: seq<Pair>, e: Pair, a: seq<Option<nat>>, n: nat, mid: seq<Option<nat>>,
                                   b: seq<Option<nat>>,
                                   next: nat, edges: seq<Pair>, src: nat, dst: nat)
    requires e.0 != e.1 && Extends(a, mid) && Extends(mid, b) && Numbering(b, next)
    requires Read(input, a, n, edges)
    requires Numbered(mid, e.0) && mid[e.0] == Some(src) && Numbered(b, e.1) && b[e.1] == Some(dst)
    requires forall i: nat :: Numbered(mid, i) <==> Numbered(a, i) || i == e.0
    requires forall i: nat :: Numbered(b, i) <==> Numbered(mid, i) || i == e.1
    ensures Read(input + [e], b, next, edges + [(src, dst)] + [(dst, src)])
  {
    hide HasInputEdge, IsEnd, Numbering;
    var longer := input + [e];
    forall x: nat ensures IsEnd(longer, x) <==> IsEnd(input, x) || e.0 == x || e.1 == x {
      EndStays(input, e, x);
    }
    forall u: nat, v: nat
      ensures HasInputEdge(longer, b, u, v) <==> HasInputEdge(input, a, u, v) || (u, v) == (src, dst) || (u, v) == (dst, src)
    {
      EdgeStays(input, e, a, b, u, v);
      assert longer[|input|] == e && b[e.0] == Some(src);
    }
  }
}
