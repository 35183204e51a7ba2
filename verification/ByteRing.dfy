/** Bx2k256Queue: a ring of 256 slots indexed by two 8-bit counters. */
module ByteRing {
  /** What an unsigned char holds after ++. */
  function Inc(x: nat): (r: nat)
    requires x < 256
    ensures r < 256
  {
    if x == 255 then 0 else x + 1
  }

  function Slot(h: nat, i: nat): (r: nat)
    requires h < 256 && i < 256
    ensures r < 256
  {
    if h + i < 256 then h + i else h + i - 256
  }

  function Size(h: nat, t: nat): (n: nat)
    requires h < 256 && t < 256
    ensures n < 256
  {
    if t >= h then t - h else t + 256 - h
  }

  /** The queue that the ring stands for. */
  ghost function Queue(q: seq<int>, h: nat, t: nat): (r: seq<int>)
    requires |q| == 256 && h < 256 && t < 256
    ensures |r| == Size(h, t)
  {
    seq(Size(h, t), i requires 0 <= i < Size(h, t) => q[Slot(h, i)])
  }

  /** Writing at t and moving on appends, unless the ring already holds 255 entries. */
  lemma {:induction false} PushAppends(q: seq<int>, h: nat, t: nat, k: int)
    requires |q| == 256 && h < 256 && t < 256
    ensures Queue(q[t := k], h, Inc(t)) == (if Size(h, t) < 255 then Queue(q, h, t) + [k] else [])
  {
    var n := Size(h, t);
    if n < 255 {
      forall i | 0 <= i <= n ensures Queue(q[t := k], h, Inc(t))[i] == (Queue(q, h, t) + [k])[i] {
        assert Slot(h, n) == t;
        assert i < n ==> Slot(h, i) != t;
      }
    } else {
      assert Inc(t) == h;
    }
  }

  lemma {:induction false} PopDropsFirst(q: seq<int>, h: nat, t: nat)
    requires |q| == 256 && h < 256 && t < 256 && h != t
    ensures |Queue(q, h, t)| > 0 && Queue(q, h, t)[0] == q[h]
    ensures Queue(q, Inc(h), t) == Queue(q, h, t)[1..]
  {
    forall i | 0 <= i < Size(Inc(h), t) ensures Queue(q, Inc(h), t)[i] == Queue(q, h, t)[i + 1] {
      assert Slot(Inc(h), i) == Slot(h, i + 1);
    }
  }

  class Bx2k256Queue {
    const q: array<int>
    var h: nat
    var t: nat

    ghost predicate Valid()
      reads this
    {
      q.Length == 256 && h < 256 && t < 256
    }

    ghost function Contents(): seq<int>
      requires Valid()
      reads this, q
    {
      Queue(q[..], h, t)
    }

    constructor ()
      ensures Valid() && fresh(q) && Contents() == []
    {
      q := new int[256](_ => -1);
      h, t := 0, 0;
    }

    method Empty() returns (ans: bool)
      requires Valid()
      ensures ans <==> Contents() == []
    {
      ans := h == t;
    }

    /** Exact: with fewer than 255 entries the value is appended; one more would wrap the
        counters onto each other and empty the queue. */
    method Push(k: int)
      requires Valid()
      modifies `t, q
      ensures Valid() && Contents() == (if |old(Contents())| < 255 then old(Contents()) + [k] else [])
    {
      PushAppends(q[..], h, t, k);
      q[t] := k;
      t := Inc(t);
    }

    method FrontAndPop() returns (ans: int)
      requires Valid() && Contents() != []
      modifies `h
      ensures Valid() && [ans] + Contents() == old(Contents())
    {
      PopDropsFirst(q[..], h, t);
      ans := q[h];
      h := Inc(h);
    }
  }

  /** Each thread queues at most once, so with up to 255 threads the ring is a plain queue. */
  lemma {:induction false} NeverFull(queue: seq<int>, threads: nat)
    requires threads <= 255
    requires forall i :: 0 <= i < |queue| ==> 0 <= queue[i] < threads
    requires forall i, j :: 0 <= i < j < |queue| ==> queue[i] != queue[j]
    ensures |queue| <= 255
    ensures forall k: int :: 0 <= k < threads && k !in queue ==> |queue| < 255
  {
    FewDistinct(queue, threads);
    forall k: int | 0 <= k < threads && k !in queue ensures |queue| < 255 {
      FewDistinct(queue + [k], threads);
    }
  }

  lemma {:induction false} FewDistinct(s: seq<int>, n: nat)
    requires forall i :: 0 <= i < |s| ==> 0 <= s[i] < n
    requires forall i, j :: 0 <= i < j < |s| ==> s[i] != s[j]
    ensures |s| <= n
  {
    if |s| == 0 {
      return;
    }
    assert 0 <= s[0] < n;
    if i :| 0 <= i < |s| && s[i] == n - 1 {
      var rest := s[..i] + s[i + 1..];
      forall a | 0 <= a < |rest| ensures 0 <= rest[a] < n - 1 {
        assert rest[a] == s[if a < i then a else a + 1];
      }
      FewDistinct(rest, n - 1);
    } else {
      FewDistinct(s, n - 1);
    }
  }
}
