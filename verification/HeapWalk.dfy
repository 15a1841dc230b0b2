// Passing a message on to both children, starting at the root of an array heap: who gets it, how
// often, and how many of those are leaves.
module HeapWalk {
  import opened Overlay
  import opened HeapShape
  import opened Naturals

  // The indices below k, in the order a recursive pass meets them.
  function Walk(m: nat, k: nat): seq<nat>
    decreases if k < m then m - k else 0
  {
    if k < m then [k] + Walk(m, 2 * k + 1) + Walk(m, 2 * k + 2) else []
  }

  // The walks from lo, lo + 1, ..., hi - 1, one after the other.
  function Row(m: nat, lo: nat, hi: nat): seq<nat>
    decreases hi
  {
    if lo < hi then Row(m, lo, hi - 1) + Walk(m, hi - 1) else []
  }

  lemma RowGrows(m: nat, lo: nat, k: nat)
    requires lo <= k
    ensures multiset(Row(m, lo, k + 1)) == multiset(Row(m, lo, k)) + multiset(Walk(m, k))
  {
  }

  lemma WalkOpens(m: nat, k: nat)
    requires k < m
    ensures multiset(Walk(m, k)) == multiset{k} + multiset(Walk(m, 2 * k + 1)) + multiset(Walk(m, 2 * k + 2))
  {
    var left, right := Walk(m, 2 * k + 1), Walk(m, 2 * k + 2);
    assert Walk(m, k) == ([k] + left) + right;
  }

  // The walks from a level of the heap are that level and the walks from the next.
  ghost predicate LevelOpens(m: nat, lo: nat, hi: nat) {
    multiset(Row(m, lo, hi)) == multiset(Range(lo, Min(hi, m))) + multiset(Row(m, 2 * lo + 1, 2 * hi + 1))
  }

  lemma {:induction false} RowStep(m: nat, lo: nat, hi: nat)
    requires lo <= hi
    ensures LevelOpens(m, lo, hi)
    decreases hi
  {
    hide LevelOpens;
    if lo < hi {
      RowStep(m, lo, hi - 1);
      RowStepOne(m, lo, hi - 1);
    } else {
      NoLevel(m, lo);
    }
  }

  lemma NoLevel(m: nat, lo: nat)
    ensures LevelOpens(m, lo, lo)
  {
    hide Row, Range, Walk;
    RangeEmpty(lo, Min(lo, m));
    RowEmpty(m, lo);
    RowEmpty(m, 2 * lo + 1);
  }

  lemma {:induction false} RowEmpty(m: nat, lo: nat)
    ensures Row(m, lo, lo) == []
  {
  }

  lemma Regroup(level: multiset<nat>, below: multiset<nat>, k: multiset<nat>,
      left: multiset<nat>, right: multiset<nat>)
    ensures (level + below) + (k + left + right) == (level + k) + ((below + left) + right)
  {
  }

  lemma RowStepOne(m: nat, lo: nat, k: nat)
    requires lo <= k && LevelOpens(m, lo, k)
    ensures LevelOpens(m, lo, k + 1)
  {
    hide Row, Range, Walk;
    RowGrows(m, lo, k);
    RowGrows(m, 2 * lo + 1, 2 * k + 1);
    RowGrows(m, 2 * lo + 1, 2 * k + 2);
    assert 2 * (k + 1) + 1 == 2 * k + 2 + 1;
    assert 2 * k + 1 + 1 == 2 * k + 2;
    if k < m {
      WalkOpens(m, k);
      RangeGrows(lo, k);
      Regroup(multiset(Range(lo, k)), multiset(Row(m, 2 * lo + 1, 2 * k + 1)), multiset{k},
        multiset(Walk(m, 2 * k + 1)), multiset(Walk(m, 2 * k + 2)));
    } else {
      WalkBeyond(m, k);
      WalkBeyond(m, 2 * k + 1);
      WalkBeyond(m, 2 * k + 2);
    }
  }

  lemma {:induction false} WalkBeyond(m: nat, k: nat)
    requires k >= m
    ensures Walk(m, k) == []
  {
  }

  lemma {:induction false} RowBeyond(m: nat, lo: nat, hi: nat)
    requires m <= lo
    ensures Row(m, lo, hi) == []
    decreases hi
  {
    if lo < hi {
      RowBeyond(m, lo, hi - 1);
    }
  }

  lemma {:induction false} RowCovers(m: nat, lo: nat)
    ensures multiset(Row(m, lo, 2 * lo + 1)) == multiset(Range(lo, m))
    decreases if lo < m then m - lo else 0
  {
    hide Row, Range;
    if lo < m {
      RowStep(m, lo, 2 * lo + 1);
      RowCovers(m, 2 * lo + 1);
      if 2 * lo + 1 <= m {
        RangeSplit(lo, 2 * lo + 1, m);
      } else {
        RangeEmpty(2 * lo + 1, m);
      }
    } else {
      RowBeyond(m, lo, 2 * lo + 1);
      RangeEmpty(lo, m);
    }
  }

  // Starting at the root, every index is met exactly once.
  lemma {:induction false} WalkCovers(m: nat)
    ensures multiset(Walk(m, 0)) == multiset(Range(0, m))
  {
    RowCovers(m, 0);
    assert Row(m, 0, 1) == Row(m, 0, 0) + Walk(m, 0);
  }

  // ---- Counting leaves ----

  // How many leaves answer when a request nobody acts on is passed on from k.
  function LeafCount(m: nat, k: nat): nat
    decreases if k < m then m - k else 0
  {
    if k >= m then 0 else if 2 * k + 1 >= m then 1 else LeafCount(m, 2 * k + 1) + LeafCount(m, 2 * k + 2)
  }

  function RowLeaves(m: nat, lo: nat, hi: nat): nat
    decreases hi
  {
    if lo < hi then RowLeaves(m, lo, hi - 1) + LeafCount(m, hi - 1) else 0
  }

  // Leaves among lo .. hi - 1.
  function LeavesIn(m: nat, lo: nat, hi: nat): nat {
    if lo < hi then LeavesIn(m, lo, hi - 1) + (if m / 2 <= hi - 1 < m then 1 else 0) else 0
  }

  lemma {:induction false} RowLeavesStep(m: nat, lo: nat, hi: nat)
    requires lo <= hi
    ensures RowLeaves(m, lo, hi) == LeavesIn(m, lo, hi) + RowLeaves(m, 2 * lo + 1, 2 * hi + 1)
    decreases hi
  {
    if lo < hi {
      RowLeavesStep(m, lo, hi - 1);
      var k := hi - 1;
      assert RowLeaves(m, 2 * lo + 1, 2 * hi + 1) == RowLeaves(m, 2 * lo + 1, 2 * hi) + LeafCount(m, 2 * k + 2);
      assert RowLeaves(m, 2 * lo + 1, 2 * hi) == RowLeaves(m, 2 * lo + 1, 2 * k + 1) + LeafCount(m, 2 * k + 1);
    }
  }

  lemma {:induction false} LeavesBeyond(m: nat, lo: nat, hi: nat)
    requires m <= lo
    ensures RowLeaves(m, lo, hi) == 0 && LeavesIn(m, lo, hi) == 0
    decreases hi
  {
    if lo < hi {
      LeavesBeyond(m, lo, hi - 1);
    }
  }

  lemma {:induction false} LeavesInSplit(m: nat, lo: nat, mid: nat, hi: nat)
    requires lo <= mid <= hi
    ensures LeavesIn(m, lo, hi) == LeavesIn(m, lo, mid) + LeavesIn(m, mid, hi)
    decreases hi
  {
    if mid < hi {
      LeavesInSplit(m, lo, mid, hi - 1);
    }
  }

  lemma {:induction false} LeavesInAll(m: nat, hi: nat)
    ensures LeavesIn(m, 0, hi) == if hi <= m / 2 then 0 else if hi <= m then hi - m / 2 else m - m / 2
  {
    if hi > 0 {
      LeavesInAll(m, hi - 1);
    }
  }

  lemma {:induction false} RowLeavesCovers(m: nat, lo: nat, top: nat)
    requires m <= top
    ensures RowLeaves(m, lo, 2 * lo + 1) == LeavesIn(m, lo, top)
    decreases if lo < m then m - lo else 0
  {
    if lo < m {
      RowLeavesStep(m, lo, 2 * lo + 1);
      RowLeavesCovers(m, 2 * lo + 1, top);
      if 2 * lo + 1 <= top {
        LeavesInSplit(m, lo, 2 * lo + 1, top);
      } else {
        LeavesInSplit(m, lo, top, 2 * lo + 1);
        LeavesBeyond(m, top, 2 * lo + 1);
      }
    } else {
      LeavesBeyond(m, lo, 2 * lo + 1);
      LeavesBeyond(m, lo, top);
    }
  }

  // An array heap of m nodes has (m + 1) / 2 leaves, the number the controller counts down from.
  lemma {:induction false} LeafTotal(m: nat)
    ensures LeafCount(m, 0) == (m + 1) / 2
  {
    RowLeavesCovers(m, 0, m);
    LeavesInAll(m, m);
    assert RowLeaves(m, 0, 1) == RowLeaves(m, 0, 0) + LeafCount(m, 0);
  }

  // How many leaves answer when entry a acts on the request and passes it no further.
  function OutsideCount(m: nat, a: nat, k: nat): nat
    decreases if k < m then m - k else 0
  {
    if k >= m || k == a then 0
    else if 2 * k + 1 >= m then 1
    else OutsideCount(m, a, 2 * k + 1) + OutsideCount(m, a, 2 * k + 2)
  }

  // Below k, entry a lies below exactly one of k's children.
  lemma {:induction false} UnderOneChild(k: nat, a: nat)
    requires k != a
    ensures Under(k, a) <==> Under(2 * k + 1, a) || Under(2 * k + 2, a)
    ensures !(Under(2 * k + 1, a) && Under(2 * k + 2, a))
    decreases a
  {
    if k < a {
      var p := Parent(a);
      if p == k {
        NotUnderLater(2 * k + 1, a);
        NotUnderLater(2 * k + 2, a);
      } else {
        UnderOneChild(k, p);
        NotUnderLater(2 * k + 1, a);
        NotUnderLater(2 * k + 2, a);
      }
    } else {
      NotUnderLater(k, a);
      NotUnderLater(2 * k + 1, a);
      NotUnderLater(2 * k + 2, a);
    }
  }

  lemma {:induction false} NotUnderLater(b: nat, a: nat)
    ensures a < b ==> !Under(b, a)
    ensures b < a ==> (Under(b, a) <==> Under(b, Parent(a)))
  {
  }

  // The "not found" answers are those of the leaves outside the acting entry's subtree.
  lemma {:induction false} OutsideTotal(m: nat, a: nat, k: nat)
    requires a < m
    ensures OutsideCount(m, a, k) == LeafCount(m, k) - (if Under(k, a) then LeafCount(m, a) else 0)
    decreases if k < m then m - k else 0
  {
    if k >= m {
      NotUnderLater(k, a);
    } else if k != a {
      UnderOneChild(k, a);
      if 2 * k + 1 < m {
        OutsideTotal(m, a, 2 * k + 1);
        OutsideTotal(m, a, 2 * k + 2);
      } else {
        NotUnderLater(2 * k + 1, a);
        NotUnderLater(2 * k + 2, a);
      }
    }
  }

  lemma {:induction false} OutsideFromRoot(m: nat, a: nat)
    requires a < m
    ensures OutsideCount(m, a, 0) == (m + 1) / 2 - LeafCount(m, a) && LeafCount(m, a) >= 1
  {
    OutsideTotal(m, a, 0);
    RootUnder(a);
    LeafTotal(m);
    SomeLeaf(m, a);
  }

  lemma {:induction false} RootUnder(a: nat)
    ensures Under(0, a)
  {
    if a > 0 {
      RootUnder(Parent(a));
    }
  }

  lemma {:induction false} SomeLeaf(m: nat, k: nat)
    requires k < m
    ensures LeafCount(m, k) >= 1
    decreases m - k
  {
    if 2 * k + 1 < m {
      SomeLeaf(m, 2 * k + 1);
    }
  }
}
