/** Singly linked lists threaded through arrays: one list per key, newest entry first.
    The schedule keeps its prefixes and its restrictions this way. */
module LinkedKeys {
  /** last[k] is the greatest entry with key k (or -1); next[p] is the greatest
      smaller entry with the key of p (or -1). */
  ghost predicate Linked(keys: seq<nat>, last: seq<int>, next: seq<int>) {
    && |next| >= |keys|
    && (forall k :: 0 <= k < |last| ==> Newest(keys, last[k], k, |keys|))
    && (forall p :: 0 <= p < |keys| ==> keys[p] < |last| && Newest(keys, next[p], keys[p], p))
  }

  /** e is the greatest entry below `bound` with key k, or -1 if there is none. */
  ghost predicate Newest(keys: seq<nat>, e: int, k: nat, bound: nat)
    requires bound <= |keys|
  {
    && -1 <= e < bound
    && (e >= 0 ==> keys[e] == k)
    && (forall p :: e < p < bound ==> keys[p] != k)
  }

  lemma {:induction false} Push(keys: seq<nat>, last: seq<int>, next: seq<int>, k: nat)
    requires Linked(keys, last, next) && k < |last| && |keys| < |next|
    ensures Linked(keys + [k], last[k := |keys|], next[|keys| := last[k]])
  {
    var keys', last', next' := keys + [k], last[k := |keys|], next[|keys| := last[k]];
    forall j | 0 <= j < |last'| ensures Newest(keys', last'[j], j, |keys'|) {
      assert Newest(keys, last[j], j, |keys|);
    }
    forall p | 0 <= p < |keys'| ensures keys'[p] < |last'| && Newest(keys', next'[p], keys'[p], p) {
      if p < |keys| {
        assert Newest(keys, next[p], keys[p], p);
      } else {
        assert Newest(keys, last[k], k, |keys|);
      }
    }
  }

  lemma {:induction false} NoEntries(n: nat, m: nat)
    ensures Linked([], seq(n, _ => -1), seq(m, _ => -1))
  {
  }
}
