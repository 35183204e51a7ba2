/** get_vec_optimize_num: how many final vertices inclusion-exclusion may take over. */
module OptimizeNum {
  import opened Patterns
  import opened Symmetry
  import opened Schedules
  import opened Matcher
  import opened ExclusionGroups

  ghost predicate HasEarlier(adj: Matrix, vec: seq<nat>, i: nat)
    requires Square(adj, |vec|) && IsPerm(vec, |vec|) && i < |vec|
  {
    exists j :: 0 <= j < i && adj[vec[i]][vec[j]]
  }

  /** Every vertex after the first touches an earlier one. */
  ghost predicate Reachable(adj: Matrix, vec: seq<nat>)
    requires Square(adj, |vec|) && IsPerm(vec, |vec|)
  {
    forall i :: 1 <= i < |vec| ==> HasEarlier(adj, vec, i)
  }

  ghost predicate TouchesLater(adj: Matrix, vec: seq<nat>, i: nat)
    requires Square(adj, |vec|) && IsPerm(vec, |vec|) && i < |vec|
  {
    exists j :: i < j < |vec| && adj[vec[i]][vec[j]]
  }

  /** The last k vertices of the order are pairwise non-adjacent. */
  ghost predicate FreeTail(adj: Matrix, vec: seq<nat>, k: nat)
    requires Square(adj, |vec|) && IsPerm(vec, |vec|)
  {
    k <= |vec| && forall i, j :: |vec| - k <= i < j < |vec| ==> !adj[vec[i]][vec[j]]
  }

  method CheckReachable(adj: Matrix, vec: seq<nat>) returns (isValid: bool)
    requires Square(adj, |vec|) && IsPerm(vec, |vec|) && |vec| > 0
    ensures isValid <==> Reachable(adj, vec)
  {
    for i := 1 to |vec|
      invariant forall k :: 1 <= k < i ==> HasEarlier(adj, vec, k)
    {
      var haveEdge := false;
      for j := 0 to i
        invariant haveEdge <==> exists l :: 0 <= l < j && adj[vec[i]][vec[l]]
      {
        haveEdge := haveEdge || adj[vec[i]][vec[j]];
      }
      if !haveEdge {
        assert !HasEarlier(adj, vec, i);
        return false;
      }
    }
    isValid := true;
  }

  method CheckLater(adj: Matrix, vec: seq<nat>, i: nat) returns (touches: bool)
    requires Square(adj, |vec|) && IsPerm(vec, |vec|) && i < |vec|
    ensures touches <==> TouchesLater(adj, vec, i)
  {
    touches := false;
    for j := i + 1 to |vec|
      invariant touches <==> exists l :: i < l < j && adj[vec[i]][vec[l]]
    {
      touches := touches || adj[vec[i]][vec[j]];
    }
  }

  lemma {:induction false} WholeIsNotFree(adj: Matrix, vec: seq<nat>)
    requires Query(|vec|, adj, false).Valid() && IsPerm(vec, |vec|) && |vec| >= 2 && Reachable(adj, vec)
    ensures !FreeTail(adj, vec, |vec|)
  {
    assert HasEarlier(adj, vec, 1);
    assert adj[vec[1]][vec[0]] && adj[vec[0]][vec[1]];
  }

  lemma {:induction false} TailGrows(adj: Matrix, vec: seq<nat>, k: nat)
    requires Square(adj, |vec|) && IsPerm(vec, |vec|) && 1 <= k < |vec| && FreeTail(adj, vec, k)
    ensures FreeTail(adj, vec, k + 1) <==> !TouchesLater(adj, vec, |vec| - k - 1)
  {
  }

  /** The longest independent tail of an order, or -1 for an order that does not grow
      along edges. */
  method GetVecOptimizeNum(adj: Matrix, vec: seq<nat>) returns (num: int)
    requires Query(|vec|, adj, false).Valid() && IsPerm(vec, |vec|) && |vec| >= 2
    ensures num == -1 <==> !Reachable(adj, vec)
    ensures num != -1 ==> 1 <= num < |vec| && FreeTail(adj, vec, num) && !FreeTail(adj, vec, num + 1)
  {
    var isValid := CheckReachable(adj, vec);
    if !isValid {
      return -1;
    }
    WholeIsNotFree(adj, vec);
    var k := 2;
    while true
      invariant 2 <= k <= |vec| && FreeTail(adj, vec, k - 1)
      decreases |vec| - k
    {
      var touches := CheckLater(adj, vec, |vec| - k);
      TailGrows(adj, vec, k - 1);
      if touches {
        return k - 1;
      }
      k := k + 1;
    }
  }

  /** In schedule order the tail is what the exclusion leaf needs; dropping its first
      vertex, as one constructor does, keeps it so. */
  lemma {:induction false} TailIsIndependent(q: Query, vec: seq<nat>, num: nat, used: nat)
    requires q.Valid() && vec == Identity(q.n) && FreeTail(q.adj, vec, num) && used <= num
    ensures Independent(q.adj, q.n - used)
  {
    forall i, j | q.n - used <= i < q.n && q.n - used <= j < q.n ensures !q.adj[i][j] {
      if i < j {
        assert !q.adj[vec[i]][vec[j]];
      } else if j < i {
        assert !q.adj[vec[j]][vec[i]];
      }
    }
  }

  lemma {:induction false} ConnectedIsReachable(q: Query, vec: seq<nat>)
    requires q.Valid() && Connected(q.adj) && vec == Identity(q.n)
    ensures Reachable(q.adj, vec)
  {
    forall i | 1 <= i < |vec| ensures HasEarlier(q.adj, vec, i) {
      var j := Nbrs(q.adj, i)[0];
      assert q.adj[vec[i]][vec[j]];
    }
  }

  /** Turns inclusion-exclusion on whenever at least two final vertices allow it. */
  method UseExclusion(plain: Plan) returns (v: Plan)
    requires plain.Valid() && plain.optimizeNum == 0
    ensures v.Valid() && v == plain.(optimizeNum := v.optimizeNum, groups := v.groups, vals := v.vals)
    ensures v.optimizeNum != 1
    ensures !FreeTail(v.adj, Identity(v.n), if v.optimizeNum == 0 then 2 else v.optimizeNum + 1)
  {
    hide Tree, LoopsBuilt, Restrictions, GoodTables, Connected;
    var order := seq(plain.n, i => i);
    assert order == Identity(plain.n);
    ghost var q := Query(plain.n, plain.adj, false);
    ConnectedIsReachable(q, order);
    var num := GetVecOptimizeNum(plain.adj, order);
    if num <= 1 {
      return plain;
    }
    var groups, vals := InitInExclusionOptimize(num);
    TailIsIndependent(q, order, num, num);
    v := plain.(optimizeNum := num, groups := groups, vals := vals);
  }
}
