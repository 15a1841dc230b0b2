// The arithmetic behind the controller's answer counter (TREE.size + 1) / 2.
module Counting {
  import opened Overlay
  import opened HeapShape
  import opened Flood
  import opened Answers
  import HeapWalk

  lemma {:induction false} AtMost(replies: set<Reply>, writers: set<int>)
    requires forall m :: m in replies ==> m.from in writers
    requires forall m, m' :: m in replies && m' in replies && m.from == m'.from ==> m == m'
    ensures |replies| <= |writers|
    decreases replies
  {
    if replies != {} {
      var m :| m in replies;
      AtMost(replies - {m}, writers - {m.from});
    }
  }

  ghost predicate WroteOne(replies: set<Reply>, x: int) {
    exists m :: m in replies && m.from == x
  }

  lemma {:induction false} AtLeast(replies: set<Reply>, c: seq<Peer>, lo: nat, hi: nat)
    requires lo <= hi <= |c| && GoodLayout(c)
    requires forall i :: lo <= i < hi ==> WroteOne(replies, c[i].main)
    ensures |replies| >= hi - lo
    decreases hi
  {
    if lo < hi {
      assert WroteOne(replies, c[hi - 1].main);
      var m :| m in replies && m.from == c[hi - 1].main;
      forall i | lo <= i < hi - 1
        ensures WroteOne(replies - {m}, c[i].main)
      {
        var m' :| m' in replies && m'.from == c[i].main;
        assert m' in replies - {m};
      }
      AtLeast(replies - {m}, c, lo, hi - 1);
    }
  }

  // The ports of layout entries lo .. hi-1.
  function Ports(c: seq<Peer>, lo: nat, hi: nat): set<int>
    requires lo <= hi <= |c|
  {
    set i | lo <= i < hi :: c[i].main
  }

  lemma {:induction false} PortsCount(c: seq<Peer>, lo: nat, hi: nat)
    requires lo <= hi <= |c| && GoodLayout(c)
    ensures |Ports(c, lo, hi)| == hi - lo
    decreases hi
  {
    if lo < hi {
      PortsCount(c, lo, hi - 1);
      assert Ports(c, lo, hi) == Ports(c, lo, hi - 1) + {c[hi - 1].main};
    }
  }

  // Every subtree has a leaf.
  lemma {:induction false} LeafUnder(n: nat, a: nat) returns (l: nat)
    requires a < n
    ensures LeafIndex(n, l) && Under(a, l)
    decreases n - a
  {
    if 2 * a + 1 >= n {
      l := a;
    } else {
      l := LeafUnder(n, 2 * a + 1);
      UnderTrans(a, 2 * a + 1, l);
    }
  }

  lemma {:induction false} UnderTrans(a: nat, b: nat, i: nat)
    requires b > a && Parent(b) == a && Under(b, i)
    ensures Under(a, i)
    decreases i
  {
    UnderIsBelow(b, i);
    if i != b {
      UnderTrans(a, b, Parent(i));
    } else {
      assert Under(a, Parent(i));
    }
  }

  ghost function NotFounds(all: set<Reply>, r: nat): set<Reply> {
    set m | m in all && m.uuid == r && m.code == NotFound
  }

  lemma NotFoundWriter(h: History, all: set<Reply>, r: nat, m: Reply)
    requires Chain(h) && RepliesSound(h, all) && m in NotFounds(all, r)
    ensures r < Now(h)
    ensures exists i: nat :: Vis(h, r, i) && i > 0 && At(h, r, i) == m.from && i != h.rounds[r].a
                             && LeafIndex(|h.rounds[r].c|, i)
  {
    var i: nat :| WrittenBy(h, m, i);
    assert Vis(h, r, i);
  }

  // A flood whose target is in the tree never draws as many "not found" replies as the tree has
  // leaves; without a target it never draws more.
  lemma NotFoundBound(h: History, all: set<Reply>, r: nat)
    requires Chain(h) && RepliesSound(h, all) && r < Now(h) && h.rounds[r].a > 0
    ensures |NotFounds(all, r)| <= (|h.rounds[r].c| + 1) / 2
    ensures h.rounds[r].a < |h.rounds[r].c| ==> |NotFounds(all, r)| < (|h.rounds[r].c| + 1) / 2
  {
    var c, a := h.rounds[r].c, h.rounds[r].a;
    assert RoundOk(h, r);
    var lo := |c| / 2;
    var writers := Ports(c, lo, |c|);
    PortsCount(c, lo, |c|);
    if a < |c| {
      var l := LeafUnder(|c|, a);
      assert c[l].main in writers;
      WritersOutside(h, all, r, l);
      AtMost(NotFounds(all, r), writers - {c[l].main});
    } else {
      forall m | m in NotFounds(all, r)
        ensures m.from in writers
      {
        NotFoundWriter(h, all, r, m);
      }
      AtMost(NotFounds(all, r), writers);
    }
  }

  lemma {:induction false} WriterOutside(h: History, all: set<Reply>, r: nat, l: nat, m: Reply)
    requires Chain(h) && RepliesSound(h, all) && m in NotFounds(all, r)
    requires r < Now(h) ==> Under(h.rounds[r].a, l) && l < |h.rounds[r].c|
    ensures r < Now(h)
    ensures exists i: nat :: i < |h.rounds[r].c| && LeafIndex(|h.rounds[r].c|, i) && i != l && At(h, r, i) == m.from
  {
    NotFoundWriter(h, all, r, m);
    var i: nat :| Vis(h, r, i) && i > 0 && At(h, r, i) == m.from && i != h.rounds[r].a && LeafIndex(|h.rounds[r].c|, i);
    assert Visited(h.rounds[r].a, l) ==> l == h.rounds[r].a;
  }

  lemma {:induction false} WritersOutside(h: History, all: set<Reply>, r: nat, l: nat)
    requires Chain(h) && RepliesSound(h, all) && r < Now(h) && GoodLayout(h.rounds[r].c)
    requires LeafIndex(|h.rounds[r].c|, l) && Under(h.rounds[r].a, l)
    ensures var c := h.rounds[r].c;
            forall m :: m in NotFounds(all, r) ==> m.from in Ports(c, |c| / 2, |c|) - {c[l].main}
  {
    forall m | m in NotFounds(all, r)
      ensures m.from in Ports(h.rounds[r].c, |h.rounds[r].c| / 2, |h.rounds[r].c|) - {h.rounds[r].c[l].main}
    {
      WriterOutside(h, all, r, l, m);
    }
  }

  // If no node acts, a finished flood has drawn exactly one "not found" per leaf.
  lemma NotFoundExact(h: History, all: set<Reply>, r: nat)
    requires Chain(h) && AnswersInv(h, all) && r < Now(h) && h.rounds[r].a >= |h.rounds[r].c|
    requires forall i: nat :: Answerer(h, r, i) ==> At(h, r, i) in h.clock && r < h.clock[At(h, r, i)]
    requires |h.rounds[r].c| >= 2
    ensures |NotFounds(all, r)| == (|h.rounds[r].c| + 1) / 2
  {
    var c, a := h.rounds[r].c, h.rounds[r].a;
    assert RoundOk(h, r);
    NotFoundBound(h, all, r);
    forall i | |c| / 2 <= i < |c|
      ensures WroteOne(NotFounds(all, r), c[i].main)
    {
      NeverUnderOutside(a, i);
      assert Answerer(h, r, i);
      var m :| m in all && m.uuid == r && m.from == c[i].main;
      var k: nat :| WrittenBy(h, m, k);
      assert m in NotFounds(all, r);
    }
    AtLeast(NotFounds(all, r), c, |c| / 2, |c|);
  }

  lemma NeverUnderOutside(a: nat, i: nat)
    requires i < a
    ensures Visited(a, i)
  {
    if i > 0 && Under(a, Parent(i)) {
      UnderIsBelow(a, Parent(i));
    }
  }

  // A leaf other than a is passed the request exactly when it is not below a.
  lemma {:induction false} LeafVisited(a: nat, i: nat)
    requires a > 0 && i > 0
    ensures Visited(a, i) && i != a <==> !Under(a, i)
  {
    if i < a {
      NeverUnderOutside(a, i);
    }
  }

  // A finished flood with a target draws "not found" from exactly the leaves outside its subtree.
  lemma NotFoundLeaves(h: History, all: set<Reply>, r: nat, x: int)
    requires Chain(h) && AnswersInv(h, all) && r < Now(h) && 0 < h.rounds[r].a < |h.rounds[r].c|
    requires forall i: nat :: Answerer(h, r, i) ==> At(h, r, i) in h.clock && r < h.clock[At(h, r, i)]
    ensures WroteOne(NotFounds(all, r), x)
            <==> exists i: nat :: LeafIndex(|h.rounds[r].c|, i) && !Under(h.rounds[r].a, i) && At(h, r, i) == x
  {
    hide RepliesSound, RepliesComplete;
    var a, n := h.rounds[r].a, |h.rounds[r].c|;
    if WroteOne(NotFounds(all, r), x) {
      var m :| m in NotFounds(all, r) && m.from == x;
      NotFoundWriter(h, all, r, m);
      var i: nat :| Vis(h, r, i) && i > 0 && At(h, r, i) == m.from && i != a && LeafIndex(n, i);
      LeafVisited(a, i);
    }
    forall i: nat | LeafIndex(n, i) && !Under(a, i) && At(h, r, i) == x
      ensures WroteOne(NotFounds(all, r), x)
    {
      LeafVisited(a, i);
      assert Answerer(h, r, i);
      LeafWrote(h, all, r, i);
    }
  }

  lemma LeafWrote(h: History, all: set<Reply>, r: nat, i: nat)
    requires Chain(h) && AnswersInv(h, all) && Answerer(h, r, i) && i != h.rounds[r].a
    requires At(h, r, i) in h.clock && r < h.clock[At(h, r, i)]
    ensures WroteOne(NotFounds(all, r), At(h, r, i))
  {
    assert Replied(all, r, At(h, r, i));
    var m :| m in all && m.uuid == r && m.from == At(h, r, i);
    var k: nat :| WrittenBy(h, m, k);
    SameSpot(h, r, k, i);
  }

  // A request draws at most one answer other than "not found": the one of its target.
  lemma OneAnswer(h: History, all: set<Reply>, m: Reply, m': Reply)
    requires RepliesSound(h, all) && m in all && m' in all && m.uuid == m'.uuid
    requires m.code != NotFound && m'.code != NotFound
    ensures m == m' && m.uuid < Now(h) && h.rounds[m.uuid].a < |h.rounds[m.uuid].c|
    ensures m.from == At(h, m.uuid, h.rounds[m.uuid].a)
  {
    var i: nat :| WrittenBy(h, m, i);
    var j: nat :| WrittenBy(h, m', j);
  }

  // Once its target has seen it, a request has drawn the target's answer.
  lemma ActorAnswered(h: History, all: set<Reply>, r: nat)
    requires Chain(h) && AnswersInv(h, all) && r < Now(h) && 0 < h.rounds[r].a < |h.rounds[r].c|
    requires var x := At(h, r, h.rounds[r].a); x in h.clock && r < h.clock[x]
    ensures exists m :: m in all && m.uuid == r && m.code != NotFound
  {
    var a := h.rounds[r].a;
    TargetVisited(a);
    assert Answerer(h, r, a);
    var m :| m in all && m.uuid == r && m.from == At(h, r, a);
    var i: nat :| WrittenBy(h, m, i);
    SameSpot(h, r, i, a);
  }

  // ---- How many, exactly ----

  // The leaves below k that are not below a.
  function LeavesBelow(m: nat, a: nat, k: nat): set<nat> {
    set i: nat | i < m && LeafIndex(m, i) && Under(k, i) && !Under(a, i)
  }

  lemma {:induction false} BelowIsLater(k: nat, i: nat)
    requires Under(k, i)
    ensures k <= i && (i != k ==> i > 2 * k)
  {
    UnderIsBelow(k, i);
    if i != k {
      UnderIsBelow(k, Parent(i));
    }
  }

  lemma LeavesSplit(m: nat, a: nat, k: nat)
    requires 2 * k + 1 < m && k != a
    ensures LeavesBelow(m, a, k) == LeavesBelow(m, a, 2 * k + 1) + LeavesBelow(m, a, 2 * k + 2)
    ensures LeavesBelow(m, a, 2 * k + 1) !! LeavesBelow(m, a, 2 * k + 2)
  {
    hide Under;
    forall i: nat
      ensures i < m && LeafIndex(m, i) ==> (Under(k, i) <==> Under(2 * k + 1, i) || Under(2 * k + 2, i))
      ensures !(Under(2 * k + 1, i) && Under(2 * k + 2, i))
    {
      if i != k {
        HeapWalk.UnderOneChild(k, i);
      } else {
        HeapWalk.NotUnderLater(2 * k + 1, k);
        HeapWalk.NotUnderLater(2 * k + 2, k);
      }
    }
  }

  lemma {:induction false} LeavesOfLast(m: nat, a: nat, k: nat)
    requires k < m <= 2 * k + 1 && !Under(a, k)
    ensures LeavesBelow(m, a, k) == {k}
  {
    forall i: nat | i < m && Under(k, i)
      ensures i == k
    {
      BelowIsLater(k, i);
    }
  }

  lemma NoLeaves(m: nat, a: nat, k: nat)
    requires k >= m || k == a
    ensures LeavesBelow(m, a, k) == {}
  {
    forall i: nat | i < m && Under(k, i)
      ensures Under(a, i)
    {
      UnderIsBelow(k, i);
    }
  }

  // The recursion of HeapWalk counts them.
  lemma {:induction false} LeavesCounted(m: nat, a: nat, k: nat)
    requires k == a || !Under(a, k)
    ensures |LeavesBelow(m, a, k)| == HeapWalk.OutsideCount(m, a, k)
    decreases if k < m then m - k else 0
  {
    hide LeavesBelow;
    if k >= m || k == a {
      NoLeaves(m, a, k);
    } else if 2 * k + 1 >= m {
      LeavesOfLast(m, a, k);
    } else {
      LeavesSplit(m, a, k);
      assert Parent(2 * k + 1) == k && Parent(2 * k + 2) == k;
      LeavesCounted(m, a, 2 * k + 1);
      LeavesCounted(m, a, 2 * k + 2);
    }
  }

  // Every leaf has written exactly one of the replies.
  ghost predicate Matched(replies: set<Reply>, c: seq<Peer>, leaves: set<nat>) {
    && GoodLayout(c) && (forall i :: i in leaves ==> i < |c| && WroteOne(replies, c[i].main))
    && (forall m :: m in replies ==> exists i :: i in leaves && c[i].main == m.from)
    && (forall m, m' :: m in replies && m' in replies && m.from == m'.from ==> m == m')
  }

  lemma OneFewer(replies: set<Reply>, c: seq<Peer>, leaves: set<nat>, m: Reply) returns (i: nat)
    requires Matched(replies, c, leaves) && m in replies
    ensures i in leaves && Matched(replies - {m}, c, leaves - {i})
  {
    i :| i in leaves && c[i].main == m.from;
    forall j | j in leaves - {i}
      ensures WroteOne(replies - {m}, c[j].main)
    {
      var m' :| m' in replies && m'.from == c[j].main;
      assert m' in replies - {m};
    }
    forall m' | m' in replies - {m}
      ensures exists j :: j in leaves - {i} && c[j].main == m'.from
    {
      var j :| j in leaves && c[j].main == m'.from;
      assert j in leaves - {i};
    }
  }

  lemma NoneWrote(c: seq<Peer>, leaves: set<nat>)
    requires Matched({}, c, leaves)
    ensures leaves == {}
  {
    assert forall x: int :: !WroteOne({}, x);
  }

  lemma {:induction false} OneEach(replies: set<Reply>, c: seq<Peer>, leaves: set<nat>)
    requires Matched(replies, c, leaves)
    ensures |replies| == |leaves|
    decreases replies
  {
    hide Matched;
    if replies != {} {
      var m :| m in replies;
      var i := OneFewer(replies, c, leaves, m);
      OneEach(replies - {m}, c, leaves - {i});
    } else {
      NoneWrote(c, leaves);
    }
  }

  // A finished flood with a target has drawn as many "not found" as the recursion counts leaves
  // outside the target's subtree.
  lemma NotFoundCount(h: History, all: set<Reply>, r: nat)
    requires Chain(h) && AnswersInv(h, all) && r < Now(h) && 0 < h.rounds[r].a < |h.rounds[r].c|
    requires forall i: nat :: Answerer(h, r, i) ==> At(h, r, i) in h.clock && r < h.clock[At(h, r, i)]
    ensures |NotFounds(all, r)| == HeapWalk.OutsideCount(|h.rounds[r].c|, h.rounds[r].a, 0)
  {
    hide RepliesSound, RepliesComplete, Chain;
    var c, a := h.rounds[r].c, h.rounds[r].a;
    var leaves := LeavesBelow(|c|, a, 0);
    RoundLayout(h, r);
    UnderIsNever(a);
    LeavesCounted(|c|, a, 0);
    forall m | m in NotFounds(all, r)
      ensures exists i :: i in leaves && c[i].main == m.from
    {
      NotFoundLeaves(h, all, r, m.from);
      var i: nat :| LeafIndex(|c|, i) && !Under(a, i) && At(h, r, i) == m.from;
      HeapWalk.RootUnder(i);
      assert i in leaves;
    }
    forall i | i in leaves
      ensures WroteOne(NotFounds(all, r), c[i].main)
    {
      NotFoundLeaves(h, all, r, c[i].main);
    }
    OneReplyEach(all, r, h);
    OneEach(NotFounds(all, r), c, leaves);
  }

  lemma {:induction false} UnderIsNever(a: nat)
    requires a > 0
    ensures !Under(a, 0)
  {
  }

  lemma RoundLayout(h: History, r: nat)
    requires Chain(h) && r < Now(h) && h.rounds[r].a > 0
    ensures GoodLayout(h.rounds[r].c)
  {
    assert RoundOk(h, r);
  }

  lemma OneReplyEach(all: set<Reply>, r: nat, h: History)
    requires RepliesSound(h, all)
    ensures forall m, m' :: m in NotFounds(all, r) && m' in NotFounds(all, r) && m.from == m'.from ==> m == m'
  {
  }
}
