// Index arithmetic of the array heap: node k has children 2k+1 and 2k+2.
module HeapShape {
  import opened Overlay

  function Parent(i: nat): nat
    requires i > 0
  {
    (i - 1) / 2
  }

  function Kid(c: seq<Peer>, j: nat): Peer { if j < |c| then c[j] else NO_PEER }

  function Kids(c: seq<Peer>, i: nat): Slots { Slots(Kid(c, 2 * i + 1), Kid(c, 2 * i + 2)) }

  // i lies in the subtree rooted at a.
  predicate Under(a: nat, i: nat) { i == a || (i > a && Under(a, Parent(i))) }

  // A flood that a swallows reaches exactly the indices not strictly below a.
  predicate Visited(a: nat, i: nat) { i == 0 || !Under(a, Parent(i)) }

  lemma {:induction false} UnderIsBelow(a: nat, i: nat)
    requires Under(a, i)
    ensures a <= i
  {
  }

  lemma VisitedStep(a: nat, i: nat)
    requires i > 0
    ensures Visited(a, i) <==> Visited(a, Parent(i)) && Parent(i) != a
  {
    var p := Parent(i);
    if p > 0 && Under(a, Parent(p)) {
      UnderIsBelow(a, Parent(p));
    }
  }

  lemma TargetVisited(a: nat)
    ensures Visited(a, a)
  {
    if a > 0 && Under(a, Parent(a)) {
      UnderIsBelow(a, Parent(a));
    }
  }

  // The first entry is the control node; ids and ports are pairwise distinct.
  predicate GoodLayout(c: seq<Peer>) {
    && |c| >= 1 && c[0] == NO_PEER
    && (forall i :: 0 < i < |c| ==> c[i].id != -1 && c[i].main != 0)
    && (forall i, j :: 0 <= i < j < |c| ==> c[i].id != c[j].id)
    && (forall i, j :: 0 <= i < j < |c| ==> c[i].main != c[j].main)
  }
}
