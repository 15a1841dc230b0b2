// The controller's counter against the answers of one request, of any command, in whatever order
// they come in.
module AnswerOrder {
  import opened Overlay
  import opened HeapShape
  import opened Flood
  import opened Answers
  import opened Counting
  import opened Controller
  import TreeArray

  function ReceiveAll(c: Ctl, ms: seq<Reply>): Ctl
    decreases |ms|
  {
    if ms == [] then c else ReceiveAll(ReceiveProcess(c, ms[0]), ms[1..])
  }

  // Answers to one request.
  predicate AnswersTo(ms: seq<Reply>, u: nat, cmd: Command, id: int) {
    forall m :: m in ms ==> m.uuid == u && m.cmd == cmd && m.id == id
  }

  predicate AllNegative(ms: seq<Reply>) { forall m :: m in ms ==> m.code == NotFound }

  // What is said when a request's counter has run out.
  function FailureOf(c: Ctl, cmd: Command, id: int): Report {
    match cmd
    case Create => CreateNotFound(id)
    case Exec => ExecNotFound(id)
    case _ => if Matching(c.scripts, cmd, id) < |c.scripts| then RemoveFailed(cmd, id) else Broken
  }

  // Once a request is over, its late answers change nothing.
  lemma {:induction false} LateAnswersIgnored(c: Ctl, ms: seq<Reply>, u: nat)
    requires (forall m :: m in ms ==> m.uuid == u) && u !in c.counts
    ensures ReceiveAll(c, ms) == c
  {
    if ms != [] {
      LateAnswersIgnored(c, ms[1..], u);
    }
  }

  // A "not found" that leaves the counter above zero only counts, whatever the command was.
  lemma OneCounts(c: Ctl, m: Reply)
    requires m.uuid in c.counts && c.counts[m.uuid] > 1 && m.code == NotFound
    ensures ReceiveProcess(c, m) == c.(counts := c.counts[m.uuid := c.counts[m.uuid] - 1])
  {
  }

  // The one that takes it to zero is reported as a failure and closes the request.
  lemma LastFails(c: Ctl, m: Reply)
    requires m.uuid in c.counts && c.counts[m.uuid] == 1 && m.code == NotFound
    ensures var c' := ReceiveProcess(c, m);
            c'.log == c.log + [FailureOf(c, m.cmd, m.id)] && m.uuid !in c'.counts
  {
  }

  // Negative answers fewer than the counter only count.
  lemma {:induction false} NegativesCount(c: Ctl, ms: seq<Reply>, u: nat)
    requires (forall m :: m in ms ==> m.uuid == u) && AllNegative(ms) && u in c.counts && |ms| < c.counts[u]
    ensures ReceiveAll(c, ms) == c.(counts := c.counts[u := c.counts[u] - |ms|])
    decreases |ms|
  {
    if ms == [] {
      assert c.counts[u := c.counts[u]] == c.counts;
    } else {
      hide ReceiveProcess;
      OneCounts(c, ms[0]);
      NegativesCount(ReceiveProcess(c, ms[0]), ms[1..], u);
      var n := c.counts[u] - |ms|;
      assert c.counts[u := c.counts[u] - 1][u := n] == c.counts[u := n];
    }
  }

  lemma {:induction false} ReceiveSplit(c: Ctl, a: seq<Reply>, b: seq<Reply>)
    ensures ReceiveAll(c, a + b) == ReceiveAll(ReceiveAll(c, a), b)
    decreases |a|
  {
    hide ReceiveProcess;
    if a == [] {
      assert a + b == b;
    } else {
      assert (a + b)[1..] == a[1..] + b;
      ReceiveSplit(ReceiveProcess(c, a[0]), a[1..], b);
    }
  }

  // ---- Only "not found" ----

  // The report comes with the last answer: before it nothing is said.
  ghost predicate ReportedLast(c: Ctl, ms: seq<Reply>, rep: Report) {
    (forall n :: 0 <= n < |ms| ==> ReceiveAll(c, ms[..n]).log == c.log) && ReceiveAll(c, ms).log == c.log + [rep]
  }

  // Nothing but "not found": what is said, and when, depends only on how the counter compares with
  // the number of answers.
  lemma {:induction false} OnlyNegatives(c: Ctl, ms: seq<Reply>, u: nat, cmd: Command, id: int)
    requires AnswersTo(ms, u, cmd, id) && AllNegative(ms) && u in c.counts && c.counts[u] > 0
    ensures |ms| < c.counts[u] ==> ReceiveAll(c, ms) == c.(counts := c.counts[u := c.counts[u] - |ms|])
    ensures |ms| >= c.counts[u] ==>
              var k := c.counts[u];
              && ReceiveAll(c, ms).log == c.log + [FailureOf(c, cmd, id)] && u !in ReceiveAll(c, ms).counts
              && ReceiveAll(c, ms[..k]) == ReceiveAll(c, ms)
    ensures forall n :: 0 <= n <= |ms| && n < c.counts[u] ==> ReceiveAll(c, ms[..n]).log == c.log
  {
    hide ReceiveProcess, ReceiveAll, FailureOf;
    forall n | 0 <= n <= |ms| && n < c.counts[u]
      ensures ReceiveAll(c, ms[..n]).log == c.log
    {
      NegativesCount(c, ms[..n], u);
    }
    if |ms| < c.counts[u] {
      NegativesCount(c, ms, u);
    } else {
      CounterRunsOut(c, ms, u, cmd, id);
    }
  }

  lemma {:induction false} CounterRunsOut(c: Ctl, ms: seq<Reply>, u: nat, cmd: Command, id: int)
    requires AnswersTo(ms, u, cmd, id) && AllNegative(ms) && u in c.counts && 0 < c.counts[u] <= |ms|
    ensures var c' := ReceiveAll(c, ms[..c.counts[u]]);
            c' == ReceiveAll(c, ms) && c'.log == c.log + [FailureOf(c, cmd, id)] && u !in c'.counts
  {
    hide ReceiveProcess, ReceiveAll;
    var k := c.counts[u];
    var head, m, tail := ms[..k - 1], ms[k - 1], ms[k..];
    assert m in ms;
    NegativesCount(c, head, u);
    var c1 := ReceiveAll(c, head);
    OneReceived(c1, m);
    LastFails(c1, m);
    SameFailure(c, c1, cmd, id);
    ReceiveSplit(c, head, [m]);
    assert head + [m] == ms[..k];
    LateAnswersIgnored(ReceiveProcess(c1, m), tail, u);
    ReceiveSplit(c, ms[..k], tail);
    assert ms[..k] + tail == ms;
  }

  lemma {:induction false} OneReceived(c: Ctl, m: Reply)
    ensures ReceiveAll(c, [m]) == ReceiveProcess(c, m)
  {
    assert [m][1..] == [];
  }

  lemma SameFailure(c: Ctl, c1: Ctl, cmd: Command, id: int)
    requires c1.scripts == c.scripts
    ensures FailureOf(c1, cmd, id) == FailureOf(c, cmd, id)
  {
  }

  lemma LastOrNever(c: Ctl, ms: seq<Reply>, u: nat, cmd: Command, id: int)
    requires AnswersTo(ms, u, cmd, id) && AllNegative(ms) && u in c.counts && c.counts[u] > 0
    ensures ReportedLast(c, ms, FailureOf(c, cmd, id)) <==> c.counts[u] == |ms|
  {
    hide ReceiveAll, FailureOf;
    OnlyNegatives(c, ms, u, cmd, id);
    var k := c.counts[u];
    if k < |ms| {
      assert ReceiveAll(c, ms[..k]).log != c.log;
    }
  }

  // ---- A request nobody acts on ----

  lemma AnswersOfFlood(h: History, all: set<Reply>, r: nat, ms: seq<Reply>)
    requires RepliesSound(h, all) && r < Now(h) && multiset(ms) == multiset(NotFounds(all, r))
    ensures AnswersTo(ms, r, h.rounds[r].req.cmd, h.rounds[r].req.id) && AllNegative(ms)
    ensures |ms| == |NotFounds(all, r)|
  {
    forall m | m in ms
      ensures m.uuid == r && m.cmd == h.rounds[r].req.cmd && m.id == h.rounds[r].req.id && m.code == NotFound
    {
      assert m in multiset(ms);
      var i: nat :| WrittenBy(h, m, i);
    }
    assert |ms| == |multiset(ms)|;
  }

  // A finished flood of a request, of any command, that no node acts on: whatever the order of its
  // answers, the failure is reported, and by the very last answer, if and only if the array the
  // counter was taken from has as many leaves as the layout that was flooded.
  lemma {:induction false} AbsentTarget(h: History, all: set<Reply>, r: nat, c: Ctl, ms: seq<Reply>)
    requires Chain(h) && AnswersInv(h, all) && r < Now(h) && h.rounds[r].a >= |h.rounds[r].c| >= 2
    requires forall i: nat :: Answerer(h, r, i) ==> At(h, r, i) in h.clock && r < h.clock[At(h, r, i)]
    requires |c.tree| > 0 && r in c.counts && c.counts[r] == (|c.tree| + 1) / 2
    requires multiset(ms) == multiset(NotFounds(all, r))
    ensures var req, n := h.rounds[r].req, |h.rounds[r].c|;
            && |ms| == (n + 1) / 2
            && (ReportedLast(c, ms, FailureOf(c, req.cmd, req.id)) <==> (|c.tree| + 1) / 2 == (n + 1) / 2)
            && ((|c.tree| + 1) / 2 > (n + 1) / 2 ==>
                  ReceiveAll(c, ms) == c.(counts := c.counts[r := (|c.tree| + 1) / 2 - (n + 1) / 2]))
  {
    hide ReceiveAll, FailureOf, Chain, RepliesSound, RepliesComplete, ReportedLast;
    NotFoundExact(h, all, r);
    AnswersOfFlood(h, all, r, ms);
    LastOrNever(c, ms, r, h.rounds[r].req.cmd, h.rounds[r].req.id);
    OnlyNegatives(c, ms, r, h.rounds[r].req.cmd, h.rounds[r].req.id);
  }

  // ---- Which requests those are: layouts that have fallen behind the array ----

  // Every node of the layout is one of the array's, and no id stands there twice.
  ghost predicate FromArray(c: seq<Peer>, t: seq<TreeArray.TreeNode>) {
    && (forall i :: 0 <= i < |c| ==> HasId(t, c[i].id))
    && (forall i, j :: 0 <= i < j < |t| ==> t[i].id != t[j].id)
  }

  predicate HasId(t: seq<TreeArray.TreeNode>, id: int) { exists j :: 0 <= j < |t| && t[j].id == id }

  function PeerIds(c: seq<Peer>): set<int> { set i | 0 <= i < |c| :: c[i].id }

  function NodeIds(t: seq<TreeArray.TreeNode>): set<int> { set j | 0 <= j < |t| :: t[j].id }

  lemma {:induction false} PeersCounted(c: seq<Peer>)
    requires forall i, j :: 0 <= i < j < |c| ==> c[i].id != c[j].id
    ensures |PeerIds(c)| == |c|
  {
    if c != [] {
      var less := c[..|c| - 1];
      PeersCounted(less);
      assert PeerIds(c) == PeerIds(less) + {c[|c| - 1].id};
    }
  }

  lemma {:induction false} NodesCounted(t: seq<TreeArray.TreeNode>)
    ensures |NodeIds(t)| <= |t|
  {
    if t != [] {
      var less := t[..|t| - 1];
      NodesCounted(less);
      assert NodeIds(t) == NodeIds(less) + {t[|t| - 1].id};
    }
  }

  // What the layout lacks, it is shorter by.
  lemma LayoutLacks(c: seq<Peer>, t: seq<TreeArray.TreeNode>, missing: set<int>)
    requires GoodLayout(c) && FromArray(c, t) && missing !! PeerIds(c) && forall id :: id in missing ==> HasId(t, id)
    ensures |c| + |missing| <= |t|
  {
    PeersCounted(c);
    NodesCounted(t);
    forall id | id in PeerIds(c) + missing
      ensures id in NodeIds(t)
    {
      if i :| 0 <= i < |c| && c[i].id == id {
        assert HasId(t, c[i].id);
      }
    }
    SmallerSet(PeerIds(c) + missing, NodeIds(t));
    assert |PeerIds(c) + missing| == |PeerIds(c)| + |missing|;
  }

  lemma SmallerSet(a: set<int>, b: set<int>)
    requires a <= b
    ensures |a| <= |b|
  {
    assert b == a + (b - a);
  }

  // Where nobody acts, everybody has passed the request on.
  lemma NobodyMeant(h: History, r: nat, i: nat)
    requires Chain(h) && r < Now(h) && i < |h.rounds[r].c| <= h.rounds[r].a
    ensures GoodLayout(h.rounds[r].c)
    ensures React(h.rounds[r].c[i].id, Kids(h.rounds[r].c, i), h.rounds[r].req) == Forward
  {
    var rd := h.rounds[r];
    assert RoundOk(h, r);
    if i > 0 && Under(rd.a, Parent(i)) {
      UnderIsBelow(rd.a, Parent(i));
    }
    assert Intact(h.nets[r], rd, i);
  }

  lemma NoneMeant(h: History, r: nat, id: int)
    requires Chain(h) && r < Now(h) && 1 <= |h.rounds[r].c| <= h.rounds[r].a
    requires var req := h.rounds[r].req;
             ((req.cmd == Create || req.cmd == Exec) && id == req.id) || (req.cmd == Create && id == req.parent)
    ensures id !in PeerIds(h.rounds[r].c) && GoodLayout(h.rounds[r].c)
  {
    NobodyMeant(h, r, 0);
    if i :| 0 <= i < |h.rounds[r].c| && h.rounds[r].c[i].id == id {
      NobodyMeant(h, r, i);
    }
  }

  // A create that no node acts on stays open for ever, whatever the order of its answers: not only
  // the new entry of the array is missing from the network, but the parent it was meant for as well,
  // so that at least one answer less comes in than the counter allows.
  lemma {:induction false} UnansweredCreate(h: History, all: set<Reply>, r: nat, c: Ctl, ms: seq<Reply>)
    requires Chain(h) && AnswersInv(h, all) && r < Now(h) && h.rounds[r].a >= |h.rounds[r].c| >= 2
    requires forall i: nat :: Answerer(h, r, i) ==> At(h, r, i) in h.clock && r < h.clock[At(h, r, i)]
    requires FromArray(h.rounds[r].c, c.tree) && h.rounds[r].req.cmd == Create && |c.tree| >= 2
    requires h.rounds[r].req.id == c.tree[|c.tree| - 1].id
    requires h.rounds[r].req.parent == c.tree[(|c.tree| - 2) / 2].id
    requires r in c.counts && c.counts[r] == (|c.tree| + 1) / 2 && multiset(ms) == multiset(NotFounds(all, r))
    ensures var left := (|c.tree| + 1) / 2 - (|h.rounds[r].c| + 1) / 2;
            |h.rounds[r].c| + 2 <= |c.tree| && left >= 1 && ReceiveAll(c, ms) == c.(counts := c.counts[r := left])
  {
    hide ReceiveAll, Chain, RepliesSound, RepliesComplete, ReportedLast, FailureOf, PeerIds, FromArray;
    var req := h.rounds[r].req;
    NoneMeant(h, r, req.id);
    NoneMeant(h, r, req.parent);
    TwoIds(h.rounds[r].c, c.tree, req.id, req.parent);
    LayoutLacks(h.rounds[r].c, c.tree, {req.id, req.parent});
    AbsentTarget(h, all, r, c, ms);
  }

  lemma TwoIds(l: seq<Peer>, t: seq<TreeArray.TreeNode>, id: int, parent: int)
    requires FromArray(l, t) && |t| >= 2 && id == t[|t| - 1].id && parent == t[(|t| - 2) / 2].id
    ensures id != parent && HasId(t, id) && HasId(t, parent)
  {
  }

  // An exec that no node acts on is reported, with its last answer, if and only if its target is the
  // only node of the array the network lacks, and the array has an even number of entries; otherwise
  // it stays open for ever.
  lemma {:induction false} UnansweredExec(h: History, all: set<Reply>, r: nat, c: Ctl, ms: seq<Reply>)
    requires Chain(h) && AnswersInv(h, all) && r < Now(h) && h.rounds[r].a >= |h.rounds[r].c| >= 2
    requires forall i: nat :: Answerer(h, r, i) ==> At(h, r, i) in h.clock && r < h.clock[At(h, r, i)]
    requires FromArray(h.rounds[r].c, c.tree) && h.rounds[r].req.cmd == Exec && HasId(c.tree, h.rounds[r].req.id)
    requires r in c.counts && c.counts[r] == (|c.tree| + 1) / 2 && multiset(ms) == multiset(NotFounds(all, r))
    ensures var n, left := |h.rounds[r].c|, (|c.tree| + 1) / 2 - (|h.rounds[r].c| + 1) / 2;
            && n + 1 <= |c.tree| && left >= 0
            && (ReportedLast(c, ms, ExecNotFound(h.rounds[r].req.id)) <==> |c.tree| == n + 1 && |c.tree| % 2 == 0)
            && (|c.tree| > n + 1 || |c.tree| % 2 == 1 ==>
                  left >= 1 && ReceiveAll(c, ms) == c.(counts := c.counts[r := left]))
  {
    hide ReceiveAll, Chain, RepliesSound, RepliesComplete, ReportedLast, PeerIds, FromArray;
    var id := h.rounds[r].req.id;
    NoneMeant(h, r, id);
    LayoutLacks(h.rounds[r].c, c.tree, {id});
    AbsentTarget(h, all, r, c, ms);
  }

  // ---- A request with a target ----

  // If one answer is not "not found", the request is decided by it alone: the negative ones before it
  // have only counted, those behind it come too late.
  lemma {:induction false} TargetDecides(c: Ctl, ms: seq<Reply>, u: nat, p: nat)
    requires (forall m :: m in ms ==> m.uuid == u) && u in c.counts
    requires p < |ms| && p < c.counts[u] && ms[p].code != NotFound && AllNegative(ms[..p])
    ensures var c1 := c.(counts := c.counts[u := c.counts[u] - p]);
            ReceiveAll(c, ms) == ReceiveProcess(c1, ms[p]) && u !in ReceiveAll(c, ms).counts
  {
    hide ReceiveProcess, ReceiveAll;
    var head, m, tail := ms[..p], ms[p], ms[p + 1..];
    NegativesCount(c, head, u);
    var c1 := ReceiveAll(c, head);
    FinalCloses(c1, m);
    LateAnswersIgnored(ReceiveProcess(c1, m), tail, u);
    OneReceived(c1, m);
    ReceiveSplit(c, head, [m]);
    ReceiveSplit(c, head + [m], tail);
    assert (head + [m]) + tail == ms;
  }

  lemma FinalCloses(c: Ctl, m: Reply)
    requires m.uuid in c.counts && m.code != NotFound
    ensures m.uuid !in ReceiveProcess(c, m).counts
  {
  }

  // The first answer that is not "not found".
  function FirstFinal(ms: seq<Reply>): (p: nat)
    ensures p <= |ms| && AllNegative(ms[..p]) && (p < |ms| ==> ms[p].code != NotFound)
  {
    if ms == [] || ms[0].code != NotFound then 0
    else
      var p := 1 + FirstFinal(ms[1..]);
      assert ms[..p] == [ms[0]] + ms[1..][..p - 1];
      p
  }

  lemma {:induction false} FewNegatives(all: set<Reply>, r: nat, ms: seq<Reply>, p: nat)
    requires p <= |ms| && AllNegative(ms[..p]) && (forall m :: m in ms ==> m in all && m.uuid == r)
    requires forall i, j :: 0 <= i < j < |ms| ==> ms[i] != ms[j]
    ensures p <= |NotFounds(all, r)|
    decreases p
  {
    if p > 0 {
      var m := ms[p - 1];
      assert m in ms && m in ms[..p];
      var rest := ms[..p - 1];
      assert forall x :: x in rest ==> x in ms[..p] && x in ms;
      FewNegatives(all - {m}, r, rest, p - 1);
      assert NotFounds(all - {m}, r) == NotFounds(all, r) - {m};
      assert m in NotFounds(all, r);
    }
  }

  // A request whose target is in the flooded layout, of any command: whichever of its answers have
  // come in, in whatever order, as soon as the target's is among them the request is decided by it
  // and by nothing else, because the "not found" answers alone never use the counter up.
  lemma {:induction false} TargetAnswers(h: History, all: set<Reply>, r: nat, c: Ctl, ms: seq<Reply>)
    requires Chain(h) && RepliesSound(h, all) && r < Now(h) && 0 < h.rounds[r].a < |h.rounds[r].c| <= |c.tree|
    requires r in c.counts && c.counts[r] == (|c.tree| + 1) / 2
    requires (forall m :: m in ms ==> m in all && m.uuid == r) && forall i, j :: 0 <= i < j < |ms| ==> ms[i] != ms[j]
    ensures var p := FirstFinal(ms);
            && p < c.counts[r]
            && (p == |ms| ==> ReceiveAll(c, ms) == c.(counts := c.counts[r := c.counts[r] - p]))
            && (p < |ms| ==>
                  && ms[p].from == At(h, r, h.rounds[r].a)
                  && ReceiveAll(c, ms) == ReceiveProcess(c.(counts := c.counts[r := c.counts[r] - p]), ms[p])
                  && r !in ReceiveAll(c, ms).counts)
  {
    hide ReceiveAll, ReceiveProcess, Chain, RepliesSound;
    var p := FirstFinal(ms);
    NotFoundBound(h, all, r);
    FewNegatives(all, r, ms, p);
    if p == |ms| {
      assert ms[..p] == ms;
      NegativesCount(c, ms, r);
    } else {
      assert ms[p] in ms;
      OneAnswer(h, all, ms[p], ms[p]);
      TargetDecides(c, ms, r, p);
    }
  }

  // When the target has seen the request and all answers have come in, the target's is among them.
  lemma {:induction false} TargetHasAnswered(h: History, all: set<Reply>, r: nat, ms: seq<Reply>)
    requires Chain(h) && AnswersInv(h, all) && r < Now(h) && 0 < h.rounds[r].a < |h.rounds[r].c|
    requires var x := At(h, r, h.rounds[r].a); x in h.clock && r < h.clock[x]
    requires forall m :: m in all && m.uuid == r ==> m in ms
    ensures FirstFinal(ms) < |ms|
  {
    hide Chain, RepliesSound, RepliesComplete, FirstFinal;
    ActorAnswered(h, all, r);
    assert ms[..|ms|] == ms;
  }

  // For an exec and a create the decision is one report.
  lemma TargetReported(c: Ctl, m: Reply)
    requires m.uuid in c.counts && m.code != NotFound
    ensures m.cmd == Exec ==>
              ReceiveProcess(c, m).log == c.log + [if m.code == Ok then ExecOk(m.id) else ExecError(m.id)]
    ensures m.cmd == Create && m.code == Ok ==>
              ReceiveProcess(c, m).log == c.log + [CreateOk(TreeArray.Find(c.tree, m.id).pid)]
  {
  }
}
