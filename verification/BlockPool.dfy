/** MiniGraphPool: blocks are lent out and come back; large free blocks are kept by size. */
module BlockPool {
  import opened Counting

  /** Entries in a 4 KB page of 32-bit ids. */
  const PAGE: nat := 1024

  ghost predicate BySize(s: seq<array<nat>>) {
    forall i, j :: 0 <= i < j < |s| ==> s[i].Length <= s[j].Length
  }

  ghost predicate Once(s: seq<array<nat>>) {
    forall i, j :: 0 <= i < j < |s| ==> s[i] != s[j]
  }

  ghost function Blocks(s: seq<array<nat>>): set<array<nat>> {
    set b | b in s
  }

  function With(s: seq<array<nat>>, i: nat, b: array<nat>): (r: seq<array<nat>>)
    requires i <= |s|
    ensures |r| == |s| + 1
  {
    s[..i] + [b] + s[i..]
  }

  lemma {:induction false} WithoutKeeps(s: seq<array<nat>>, i: nat)
    requires i < |s| && BySize(s) && Once(s)
    ensures BySize(Erase(s, i)) && Once(Erase(s, i))
    ensures Blocks(Erase(s, i)) == Blocks(s) - {s[i]}
    ensures forall k :: 0 <= k < |Erase(s, i)| ==> Erase(s, i)[k] in s
  {
    var r := Erase(s, i);
    forall k | 0 <= k < |r| ensures r[k] == s[if k < i then k else k + 1] {}
    forall b | b in s && b != s[i] ensures b in r {
      var k :| 0 <= k < |s| && s[k] == b;
      assert r[if k < i then k else k - 1] == b;
    }
  }

  lemma {:induction false} WithKeeps(s: seq<array<nat>>, i: nat, b: array<nat>)
    requires i <= |s| && BySize(s) && Once(s) && b !in s
    requires forall k :: 0 <= k < i ==> s[k].Length <= b.Length
    requires forall k :: i <= k < |s| ==> b.Length <= s[k].Length
    ensures BySize(With(s, i, b)) && Once(With(s, i, b))
    ensures Blocks(With(s, i, b)) == Blocks(s) + {b}
    ensures forall k :: 0 <= k < |With(s, i, b)| ==> With(s, i, b)[k] in s || With(s, i, b)[k] == b
  {
    var r := With(s, i, b);
    forall k | 0 <= k < |r| ensures r[k] == if k < i then s[k] else if k == i then b else s[k - 1] {}
    forall x | x in s ensures x in r {
      var k :| 0 <= k < |s| && s[k] == x;
      assert r[if k < i then k else k + 1] == x;
    }
    assert r[i] == b;
  }

  lemma {:induction false} NoShorter(s: seq<array<nat>>, i: nat, len: nat)
    requires BySize(s) && i <= |s| && (i < |s| ==> len <= s[i].Length)
    ensures forall k :: i <= k < |s| ==> len <= s[k].Length
  {
  }

  class MiniGraphPool {
    /** Every block ever created. */
    var exist: seq<array<nat>>
    /** Free blocks above page size, by size. */
    var avail: seq<array<nat>>
    /** Free blocks of page size. */
    var small: seq<array<nat>>
    /** Blocks in use. */
    ghost var lent: set<array<nat>>

    /** Each block is free once or lent once, and the free list is sorted. */
    ghost predicate Valid()
      reads this
    {
      && BySize(avail) && Once(avail) && Once(small) && Once(exist)
      && (forall i :: 0 <= i < |avail| ==> avail[i].Length > PAGE)
      && (forall i :: 0 <= i < |small| ==> small[i].Length == PAGE)
      && Blocks(avail) !! lent && Blocks(small) !! lent
      && Blocks(exist) == Blocks(avail) + Blocks(small) + lent
      && (forall b :: b in lent ==> b.Length >= PAGE)
    }

    constructor ()
      ensures Valid() && lent == {} && exist == []
    {
      exist, avail, small, lent := [], [], [], {};
    }

    method Create(capacity: nat) returns (out: array<nat>)
      requires Valid() && capacity >= PAGE
      modifies `exist, `lent
      ensures Valid() && fresh(out) && out.Length == capacity
      ensures lent == old(lent) + {out} && exist == old(exist) + [out]
    {
      out := new nat[capacity](_ => 0);
      exist := exist + [out];
      lent := lent + {out};
      assert Blocks(exist) == Blocks(old(exist)) + {out};
    }

    method AllocateSmallWorkSpace() returns (out: array<nat>)
      requires Valid()
      modifies `exist, `small, `lent
      ensures Valid() && out.Length == PAGE && out !in old(lent) && lent == old(lent) + {out}
      ensures if |old(small)| > 0 then out in old(small) && exist == old(exist) else fresh(out) && exist == old(exist) + [out]
    {
      if |small| == 0 {
        out := Create(PAGE);
      } else {
        out := small[|small| - 1];
        assert Blocks(small) == Blocks(small[..|small| - 1]) + {out};
        assert out !in Blocks(small[..|small| - 1]);
        small := small[..|small| - 1];
        lent := lent + {out};
        NotBoth();
      }
    }

    /** A page-sized block is never in the large list. */
    lemma NotBoth()
      requires (forall i :: 0 <= i < |avail| ==> avail[i].Length > PAGE)
      ensures forall b :: b in Blocks(avail) ==> b.Length > PAGE
    {
    }

    /** Some free block of the right list is large enough. */
    ghost predicate CanReuse(numElements: nat)
      reads this
    {
      if numElements <= PAGE then |small| > 0 else exists b :: b in avail && b.Length >= numElements
    }

    /** The list is sorted, so when its last block is large enough the search finds the
        smallest one that is. */
    method AllocateWorkSpace(numElements: nat) returns (out: array<nat>)
      requires Valid()
      modifies `exist, `avail, `small, `lent
      ensures Valid() && out.Length >= numElements && out !in old(lent) && lent == old(lent) + {out}
      ensures if old(CanReuse(numElements)) then (out in old(avail) || out in old(small)) && exist == old(exist)
        else fresh(out) && exist == old(exist) + [out]
      ensures fresh(out) ==> out.Length == if numElements <= PAGE then PAGE else numElements * 3 / 2 + PAGE
      ensures out in old(avail) ==> forall b :: b in old(avail) && b.Length >= numElements ==> out.Length <= b.Length
    {
      if numElements <= PAGE {
        out := AllocateSmallWorkSpace();
        NotBoth();
        return;
      }
      if |avail| == 0 || avail[|avail| - 1].Length < numElements {
        var capacity := numElements * 3 / 2 + PAGE;
        out := Create(capacity);
        return;
      }
      var i := FirstFitting(numElements);
      out := avail[i];
      assert avail[|avail| - 1] in avail;
      WithoutKeeps(avail, i);
      SmallIsOther(out);
      assert out in Blocks(avail);
      avail := Erase(avail, i);
      lent := lent + {out};
    }

    /** The first, and so the smallest, block of the sorted list that fits. */
    method FirstFitting(numElements: nat) returns (i: nat)
      requires BySize(avail) && |avail| > 0 && avail[|avail| - 1].Length >= numElements
      ensures i < |avail| && avail[i].Length >= numElements
      ensures forall b :: b in avail && b.Length >= numElements ==> avail[i].Length <= b.Length
    {
      i := 0;
      while avail[i].Length < numElements
        invariant 0 <= i < |avail|
        invariant forall k :: 0 <= k < i ==> avail[k].Length < numElements
        decreases |avail| - i
      {
        i := i + 1;
      }
    }

    lemma SmallIsOther(out: array<nat>)
      requires (forall i :: 0 <= i < |small| ==> small[i].Length == PAGE) && out.Length > PAGE
      ensures out !in Blocks(small)
    {
    }

    method FreeWorkSpace(ctn: array<nat>)
      requires Valid() && ctn in lent
      modifies `avail, `small, `lent
      ensures Valid() && lent == old(lent) - {ctn} && (ctn in avail || ctn in small)
      ensures exist == old(exist)
    {
      hide BySize;
      assert ctn !in Blocks(avail) && ctn !in Blocks(small);
      if ctn.Length <= PAGE {
        assert Blocks(small + [ctn]) == Blocks(small) + {ctn};
        small := small + [ctn];
        lent := lent - {ctn};
        return;
      }
      var i := 0;
      while i < |avail| && avail[i].Length < ctn.Length
        invariant 0 <= i <= |avail|
        invariant forall k :: 0 <= k < i ==> avail[k].Length < ctn.Length
        modifies {}
      {
        i := i + 1;
      }
      NoShorter(avail, i, ctn.Length);
      WithKeeps(avail, i, ctn);
      assert ctn in Blocks(With(avail, i, ctn));
      avail := With(avail, i, ctn);
      lent := lent - {ctn};
    }

    /** Swaps the block for a larger one with the same contents in front. */
    method Resize(ctn: array<nat>, newCapacity: nat) returns (out: array<nat>)
      requires Valid() && ctn in lent && ctn.Length < newCapacity
      modifies this, Blocks(avail), Blocks(small)
      ensures Valid() && out.Length >= newCapacity && lent == old(lent) - {ctn} + {out} && out !in old(lent)
      ensures out[..ctn.Length] == old(ctn[..])
      ensures forall b :: b in old(lent) ==> b[..] == old(b[..])
    {
      ghost var lent0 := lent;
      out := AllocateWorkSpace(newCapacity);
      forall i | 0 <= i < ctn.Length {
        out[i] := ctn[i];
      }
      assert out[..ctn.Length] == ctn[..];
      FreeWorkSpace(ctn);
    }
  }
}
