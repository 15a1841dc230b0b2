// Powers of two and runs of consecutive numbers.
module Naturals {

  function Min(a: nat, b: nat): nat { if a < b then a else b }

  function Pow2(k: nat): (p: nat)
    ensures p > 0
  {
    if k == 0 then 1 else 2 * Pow2(k - 1)
  }

  // lo, lo + 1, ..., hi - 1
  function Range(lo: nat, hi: nat): seq<nat>
    decreases hi
  {
    if lo < hi then Range(lo, hi - 1) + [hi - 1] else []
  }

  lemma {:induction false} InRange(lo: nat, hi: nat, x: nat)
    ensures x in Range(lo, hi) <==> lo <= x < hi
    decreases hi
  {
    if lo < hi {
      InRange(lo, hi - 1, x);
    }
  }

  lemma {:induction false} RangeSplit(lo: nat, mid: nat, hi: nat)
    requires lo <= mid <= hi
    ensures Range(lo, hi) == Range(lo, mid) + Range(mid, hi)
    decreases hi
  {
    if mid < hi {
      RangeSplit(lo, mid, hi - 1);
    }
  }

  lemma {:induction false} RangeEmpty(lo: nat, hi: nat)
    requires hi <= lo
    ensures Range(lo, hi) == []
  {
  }

  lemma {:induction false} RangeAlone(k: nat)
    ensures Range(k, k + 1) == [k]
  {
  }

  lemma RangeGrows(lo: nat, k: nat)
    requires lo <= k
    ensures multiset(Range(lo, k + 1)) == multiset(Range(lo, k)) + multiset{k}
  {
  }
}
