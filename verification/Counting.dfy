/** Finite counting: sizes of images, products and sets of tuples.
    Every count in the project is the cardinality of one of these sets. */
module Counting {
  import opened Arithmetic

  /** A subset is no larger, and a subset of equal size is the whole set. */
  lemma {:induction false} SubsetSize<T>(a: set<T>, b: set<T>)
    requires a <= b
    ensures |a| <= |b|
    ensures |a| == |b| ==> a == b
  {
    assert b == a + (b - a);
    assert |b| == |a| + |b - a|;
  }

  ghost predicate InjectiveOn<T(!new), U>(f: T -> U, s: set<T>) {
    forall x, y :: x in s && y in s && f(x) == f(y) ==> x == y
  }

  ghost function Image<T(!new), U>(f: T -> U, s: set<T>): set<U> {
    set x | x in s :: f(x)
  }

  /** An injective image has as many elements as its source. */
  lemma {:induction false} ImageSize<T(!new), U>(f: T -> U, s: set<T>)
    requires InjectiveOn(f, s)
    ensures |Image(f, s)| == |s|
    decreases s
  {
    if s == {} {
      assert Image(f, s) == {};
    } else {
      var x :| x in s;
      var rest := s - {x};
      ImageSize(f, rest);
      assert Image(f, s) == Image(f, rest) + {f(x)};
      assert f(x) !in Image(f, rest);
    }
  }

  ghost function Product<A(!new), B(!new)>(a: set<A>, b: set<B>): set<(A, B)> {
    set x, y | x in a && y in b :: (x, y)
  }

  lemma {:induction false} ProductSize<A(!new), B(!new)>(a: set<A>, b: set<B>)
    ensures |Product(a, b)| == |a| * |b|
    decreases a
  {
    if a == {} {
      assert Product(a, b) == {};
    } else {
      var x :| x in a;
      var rest := a - {x};
      ProductSize(rest, b);
      var row := Image((y: B) => (x, y), b);
      ImageSize((y: B) => (x, y), b);
      assert Product(a, b) == Product(rest, b) + row;
      assert Product(rest, b) !! row;
      OneMore(|rest|, |b|);
    }
  }

  /** All sequences of length k over [0, v). */
  ghost function Tuples(k: nat, v: nat): (r: set<seq<nat>>)
    ensures forall t :: t in r <==> IsTuple(t, k, v)
  {
    if k == 0 then
      {[]}
    else
      var shorter := Tuples(k - 1, v);
      var r := set t, x | t in shorter && 0 <= x < v :: t + [x];
      assert forall t :: IsTuple(t, k, v) ==> t in r by {
        forall t | IsTuple(t, k, v) ensures t in r {
          var x := t[k - 1];
          assert t == t[..k - 1] + [x];
          assert t[..k - 1] in shorter;
        }
      }
      r
  }

  ghost predicate IsTuple(t: seq<nat>, k: nat, v: nat) {
    |t| == k && forall i :: 0 <= i < k ==> t[i] < v
  }

  ghost predicate Injective(t: seq<nat>) {
    forall i, j :: 0 <= i < j < |t| ==> t[i] != t[j]
  }

  ghost function Elements<T>(s: seq<T>): set<T> {
    set x | x in s
  }

  ghost predicate Distinct<T>(s: seq<T>) {
    forall i, j :: 0 <= i < j < |s| ==> s[i] != s[j]
  }

  lemma {:induction false} DistinctSize<T>(s: seq<T>)
    requires Distinct(s)
    ensures |Elements(s)| == |s|
  {
    if |s| == 0 {
      assert Elements(s) == {};
    } else {
      var n := |s| - 1;
      DistinctSize(s[..n]);
      assert Elements(s) == Elements(s[..n]) + {s[n]};
      assert s[n] !in Elements(s[..n]);
    }
  }

  /** The numbers below n. */
  ghost function Below(n: nat): (r: set<nat>)
    ensures forall x: nat :: x in r <==> x < n
    ensures |r| == n
  {
    if n == 0 then {} else Below(n - 1) + {n - 1}
  }

  /** An injective self-map of [0, n) hits every number below n. */
  lemma {:induction false} InjectiveIsOnto(p: seq<nat>, v: nat)
    requires Injective(p) && IsTuple(p, |p|, |p|)
    requires v < |p|
    ensures v in p
  {
    DistinctSize(p);
    assert Elements(p) <= Below(|p|);
    SubsetSize(Elements(p), Below(|p|));
    assert v in Elements(p);
  }

  // ----- lists -----

  function Erase<T>(s: seq<T>, i: nat): (r: seq<T>)
    requires i < |s|
    ensures |r| == |s| - 1
    ensures forall k :: 0 <= k < |r| ==> r[k] == s[if k < i then k else k + 1]
  {
    s[..i] + s[i + 1..]
  }
}
