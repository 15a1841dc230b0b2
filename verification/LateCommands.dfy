// What becomes of a command that comes in while the last step of a removal has been carried out in
// the network and its answer is still on the way: the array is one entry ahead of the network then.
module LateCommands {
  import opened Overlay
  import opened HeapShape
  import opened Flood
  import opened Answers
  import opened Counting
  import opened Phases
  import opened Shapes
  import opened TreeArray
  import opened Controller
  import opened Scripts
  import opened TreeSystem
  import opened TreeLedger
  import opened TreeRuns
  import opened TreeTheorems
  import A = AnswerOrder

  // ---- Runs put together ----

  lemma {:induction false} RunAppend(s: Sys, a: seq<Action>, b: seq<Action>)
    requires Runnable(s, a) && Runnable(Run(s, a), b)
    ensures Runnable(s, a + b) && Run(s, a + b) == Run(Run(s, a), b)
    decreases |a|
  {
    hide Apply, Enabled;
    if a == [] {
      assert a + b == b;
    } else {
      assert (a + b)[1..] == a[1..] + b;
      RunAppend(Apply(s, a[0]), a[1..], b);
    }
  }

  lemma {:induction false} RunOne(s: Sys, a: Action, more: seq<Action>)
    requires Enabled(s, a) && Runnable(Apply(s, a), more)
    ensures Runnable(s, [a] + more) && Run(s, [a] + more) == Run(Apply(s, a), more)
  {
    hide Apply, Enabled;
    assert ([a] + more)[1..] == more;
  }

  // ---- Every request delivered ----

  predicate Drained(s: Sys) { forall x :: x in s.queues ==> s.queues[x] == [] }

  predicate AllProcess(acts: seq<Action>) { forall a :: a in acts ==> a.Process? }

  ghost predicate Watched(s: Sys, h: History, all: set<Reply>) {
    Linked(s.ctl, s.net, s.queues, h, all) && s.replies <= all
  }

  lemma HasProcess(s: Sys, h: History, all: set<Reply>, x: int)
    requires Watched(s, h, all) && x in s.queues
    ensures x in s.net
  {
    QueueOwner(h, Whole(s.net, s.ctl.slots), s.queues, x);
  }

  lemma DeliverOne(s: Sys, h: History, all: set<Reply>, x: int) returns (h': History, all': set<Reply>)
    requires Watched(s, h, all) && x in s.queues && s.queues[x] != []
    ensures Enabled(s, Process(x, false))
    ensures var s' := Apply(s, Process(x, false));
            && Watched(s', h', all') && s'.ctl == s.ctl && h'.rounds == h.rounds
            && all' - s'.replies == all - s.replies
    ensures |Ahead(h', Now(h'))| < |Ahead(h, Now(h))|
  {
    hide Linked;
    HasProcess(s, h, all, x);
    LinkedFacts(s.ctl, s.net, s.queues, h, all);
    ProcessLinked(s.ctl, s.net, s.queues, h, all, x, false);
    var d := Deliver(s.net, s.queues, x, false);
    h', all' := Seen(h, x, s.queues[x][0].uuid), AllAfter(all, d);
    SameReceived(all, s.replies, d);
    LinkedFacts(s.ctl, d.net, d.queues, h', all');
    assert h'.clock[x] <= Now(h');
    AheadShrinks(h, h', Now(h), Now(h'));
  }

  lemma {:induction false} DeliverAll(s: Sys, h: History, all: set<Reply>)
    returns (more: seq<Action>, h': History, all': set<Reply>)
    requires Watched(s, h, all)
    ensures Runnable(s, more) && AllProcess(more)
    ensures var s' := Run(s, more);
            && Watched(s', h', all') && Drained(s') && s'.ctl == s.ctl && h'.rounds == h.rounds
            && all' - s'.replies == all - s.replies
    decreases |Ahead(h, Now(h))|
  {
    hide Watched, Apply, Enabled;
    more, h', all' := [], h, all;
    if x :| x in s.queues && s.queues[x] != [] {
      h', all' := DeliverOne(s, h, all, x);
      more, h', all' := DeliverAll(Apply(s, Process(x, false)), h', all');
      RunOne(s, Process(x, false), more);
      more := [Process(x, false)] + more;
    }
  }

  // Everybody a request is meant for has seen it by then.
  lemma DrainedIsSeen(s: Sys, h: History, all: set<Reply>, r: nat, i: nat)
    requires Watched(s, h, all) && Drained(s) && Vis(h, r, i) && i > 0
    ensures At(h, r, i) in h.clock && r < h.clock[At(h, r, i)]
  {
    var w := Whole(s.net, s.ctl.slots);
    VisIsFlood(h, r, i);
    ActorKnown(h, w, s.queues, r, i);
    if h.clock[At(h, r, i)] <= r {
      var x := SomebodyHasIt(h, w, s.queues, r, i);
    }
  }

  // ---- Answers that are never enough ----

  function AnswersOf(s: Sys, r: nat): set<Reply> { set m | m in s.replies && m.uuid == r }

  function Mine(ms: seq<Reply>, r: nat): nat {
    if ms == [] then 0 else (if ms[0].uuid == r then 1 else 0) + Mine(ms[1..], r)
  }

  predicate Distinct(ms: seq<Reply>) { forall i, j :: 0 <= i < j < |ms| ==> ms[i] != ms[j] }

  // Whatever replies the controller receives, in whatever order, and whatever else they lead to:
  // as long as no answer to request r is made up or counted twice, the request stays open.
  ghost predicate NeverCloses(s: Sys, r: nat) {
    forall ms: seq<Reply> {:trigger A.ReceiveAll(s.ctl, ms)} ::
      Distinct(ms) && (forall m :: m in ms && m.uuid == r ==> m in s.replies) ==>
        r in A.ReceiveAll(s.ctl, ms).counts
  }

  lemma {:induction false} RecRemoveKeepsCount(c: Ctl, cmd: Command, id: int, code: Code, count: int, r: nat)
    requires r in c.counts && r < c.serial
    ensures var c' := RecRemove(c, cmd, id, code, count);
            r in c'.counts && c'.counts[r] == c.counts[r] && r < c'.serial
    decreases TotalLeft(c.scripts), 0
  {
    var i := Matching(c.scripts, cmd, id);
    if i < |c.scripts| {
      var sc := c.scripts[i].(now := c.scripts[i].now + 1);
      TotalLeftUpdate(c.scripts, i, sc);
      if code == Ok && sc.now < sc.number {
        PushNextKeepsCount(c.(scripts := c.scripts[i := sc]), sc, r);
      }
    }
  }

  lemma {:induction false} PushNextKeepsCount(c: Ctl, sc: Script, r: nat)
    requires r in c.counts && r < c.serial
    ensures var c' := PushNext(c, sc); r in c'.counts && c'.counts[r] == c.counts[r] && r < c'.serial
    decreases TotalLeft(c.scripts), 1
  {
    if Decode(sc).Some? {
      var req := Decode(sc).value;
      if req.cmd == Disconnect {
        RecRemoveKeepsCount(c.(slots := Detach(c.slots, req.id), serial := c.serial + 1), Disconnect, req.id, Ok, 0, r);
      } else if req.cmd == Connect {
        RecRemoveKeepsCount(c.(slots := Attach(c.slots, Peer(req.id, req.main, req.ping)), serial := c.serial + 1),
                            Connect, req.id, Ok, 0, r);
      } else if req.cmd == Ping {
        RecRemoveKeepsCount(c.(serial := c.serial + 1), Ping, req.id, Ok, 0, r);
      }
    }
  }

  lemma OtherKeepsCount(c: Ctl, m: Reply, r: nat)
    requires r in c.counts && r < c.serial && m.uuid != r
    ensures var c' := ReceiveProcess(c, m); r in c'.counts && c'.counts[r] == c.counts[r] && r < c'.serial
  {
    hide RecRemove;
    if m.uuid in c.counts {
      var count := c.counts[m.uuid] - 1;
      RecRemoveKeepsCount(c.(counts := c.counts[m.uuid := count]), m.cmd, m.id, m.code, count, r);
    }
  }

  lemma {:induction false} StaysOpen(c: Ctl, ms: seq<Reply>, r: nat)
    requires r in c.counts && r < c.serial && Mine(ms, r) < c.counts[r]
    requires forall m :: m in ms && m.uuid == r ==> m.code == NotFound
    ensures r in A.ReceiveAll(c, ms).counts
    decreases |ms|
  {
    hide ReceiveProcess;
    if ms != [] {
      if ms[0].uuid == r {
        A.OneCounts(c, ms[0]);
      } else {
        OtherKeepsCount(c, ms[0], r);
      }
      StaysOpen(ReceiveProcess(c, ms[0]), ms[1..], r);
    }
  }

  lemma {:induction false} MineBound(ms: seq<Reply>, r: nat, answers: set<Reply>)
    requires Distinct(ms) && forall m :: m in ms && m.uuid == r ==> m in answers
    ensures Mine(ms, r) <= |answers|
    decreases |ms|
  {
    if ms != [] {
      var rest := if ms[0].uuid == r then answers - {ms[0]} else answers;
      MineBound(ms[1..], r, rest);
    }
  }

  lemma NotEnough(s: Sys, r: nat)
    requires r in s.ctl.counts && r < s.ctl.serial && |AnswersOf(s, r)| < s.ctl.counts[r]
    requires forall m :: m in AnswersOf(s, r) ==> m.code == NotFound
    ensures NeverCloses(s, r)
  {
    hide A.ReceiveAll;
    forall ms: seq<Reply> | Distinct(ms) && (forall m :: m in ms && m.uuid == r ==> m in s.replies)
      ensures r in A.ReceiveAll(s.ctl, ms).counts
    {
      assert forall m :: m in ms && m.uuid == r ==> m in AnswersOf(s, r);
      MineBound(ms, r, AnswersOf(s, r));
      StaysOpen(s.ctl, ms, r);
    }
  }

  // ---- A request nobody acts on ----

  // n mirrors l, but for processes without children that are not part of it.
  ghost predicate Covers(n: Net, l: seq<Peer>) {
    && (forall i {:trigger SpotOk(n, l, i, Kids(l, i))} :: 0 <= i < |l| ==> SpotOk(n, l, i, Kids(l, i)))
    && (forall x {:trigger Listed(l, x)} :: x in n ==> Listed(l, x) || n[x].slots == NO_CHILDREN)
  }

  lemma NobodyActs(n: Net, l: seq<Peer>, req: Request)
    requires GoodLayout(l) && Covers(n, l)
    requires forall i :: 0 <= i < |l| ==> React(l[i].id, Kids(l, i), req).Forward?
    ensures ProperFlood(n, Round(req, l, |l|), n)
  {
    forall i | 0 <= i < |l|
      ensures SlotsFit(n, l, i) && Intact(n, Round(req, l, |l|), i)
    {
      assert SpotOk(n, l, i, Kids(l, i));
    }
  }

  lemma MirrorsCovers(n: Net, l: seq<Peer>)
    requires Mirrors(n, l)
    ensures Covers(n, l)
  {
  }

  lemma OneMoreCovers(n: Net, l: seq<Peer>, p: Peer)
    requires Mirrors(n, l) && forall i :: 0 <= i < |l| ==> l[i].main != p.main
    ensures Covers(n[p.main := Proc(p, NO_CHILDREN)], l)
  {
    forall i | 0 <= i < |l|
      ensures SpotOk(n[p.main := Proc(p, NO_CHILDREN)], l, i, Kids(l, i))
    {
      assert SpotOk(n, l, i, Kids(l, i));
    }
  }

  lemma {:induction false} SendToNobody(c: Ctl, net: Net, qs: Queues, h: History, all: set<Reply>, rd: Round)
    requires Linked(c, net, qs, h, all) && |h.nets| == Now(h) + 1 && Settled(h, Now(h)) && c.out == []
    requires rd.a > 0 && ProperFlood(h.nets[Now(h)], rd, h.nets[Now(h)])
    ensures var h', c' := Extend(h, rd, h.nets[Now(h)], {}), Send(c, rd.req);
            Linked(c', net, PushOut(qs, c'.out), h', all)
  {
    var n := h.nets[Now(h)];
    IssueKeepsInv(h, Whole(net, c.slots), qs, rd, n);
    SentReaches(qs, c.slots, Msg(Now(h), rd.req));
    ExtendAnswers(h, rd, n, {}, all);
  }

  lemma NoAnswersYet(s: Sys, h: History, all: set<Reply>, r: nat)
    requires Watched(s, h, all) && r >= Now(h)
    ensures forall m :: m in all ==> m.uuid != r
  {
    forall m | m in all
      ensures m.uuid != r
    {
      var i: nat :| WrittenBy(h, m, i);
    }
  }

  lemma OnlyNotFound(h: History, all: set<Reply>, r: nat)
    requires RepliesSound(h, all) && r < Now(h) && h.rounds[r].a >= |h.rounds[r].c|
    ensures forall m :: m in all && m.uuid == r ==> m.code == NotFound
  {
    forall m | m in all && m.uuid == r
      ensures m.code == NotFound
    {
      var i: nat :| WrittenBy(h, m, i);
    }
  }

  // Once it has reached everybody, it has drawn one "not found" from every leaf, and nothing else.
  lemma AllAnswered(s: Sys, h: History, all: set<Reply>, r: nat)
    requires Watched(s, h, all) && Drained(s) && r < Now(h) && h.rounds[r].a >= |h.rounds[r].c| >= 2
    requires forall m :: m in all - s.replies ==> m.uuid != r
    ensures AnswersOf(s, r) == NotFounds(all, r) && |AnswersOf(s, r)| == (|h.rounds[r].c| + 1) / 2
    ensures forall i: nat :: Answerer(h, r, i) ==> At(h, r, i) in h.clock && r < h.clock[At(h, r, i)]
    ensures Chain(h) && AnswersInv(h, all)
  {
    hide Linked, Drained;
    LinkedFacts(s.ctl, s.net, s.queues, h, all);
    LinkedAnswers(s, h, all);
    forall i: nat | Answerer(h, r, i)
      ensures At(h, r, i) in h.clock && r < h.clock[At(h, r, i)]
    {
      DrainedIsSeen(s, h, all, r, i);
    }
    OnlyNotFound(h, all, r);
    NotFoundExact(h, all, r);
  }

  lemma LinkedAnswers(s: Sys, h: History, all: set<Reply>)
    requires Watched(s, h, all)
    ensures AnswersInv(h, all)
  {
  }

  // ---- A removal whose last step has been carried out, and not been answered yet ----

  ghost predicate AlmostRemoved(s: Sys, h: History, all: set<Reply>, ids: seq<int>, b: Book, k: nat, m: Reply) {
    && SysInv(s, h, all, ids, b) && |h.nets| == Now(h) + 1 && 0 < k < |s.ctl.tree|
    && StepCount(Layout(s.ctl.tree), k) > 0
    && Removing(s, h, ids, k, StepCount(Layout(s.ctl.tree), k) - 1)
    && m in s.replies && m.uuid in s.ctl.counts && m.code != NotFound
  }

  // With two entries the last step is the controller's own.
  lemma LastOfThree(c: seq<Peer>, k: nat)
    requires 0 < k < |c| && LastIsSent(c, k)
    ensures |c| >= 3
  {
  }

  lemma NetworkIsAhead(s: Sys, h: History, all: set<Reply>, ids: seq<int>, b: Book, k: nat, m: Reply)
    requires AlmostRemoved(s, h, all, ids, b, k, m)
    ensures var t, l := s.ctl.tree, Without(Layout(s.ctl.tree), k);
            && |t| >= 3 && TreeOk(t, s.ctl.self, s.ctl.nextPort) && GoodLayout(l) && Mirrors(h.nets[Now(h)], l)
            && Carried(h, {}) && Settled(h, Now(h)) && s.ctl.serial == Now(h) && s.ctl.out == [] && Watched(s, h, all)
    ensures |h.nets| == Now(h) + 1
  {
    hide Opens, Ledger, Mode, Shape, StepRound, Mirrors, Ids, TailIds, ScriptFor, RepliesSound, TreeOk, Carried;
    var t := s.ctl.tree;
    LinkedFacts(s.ctl, s.net, s.queues, h, all);
    LastOfThree(Layout(t), k);
    FinalSettles(h, all, m, {(Now(h) - 1) as nat});
    assert {(Now(h) - 1) as nat} - {m.uuid} == {};
    CarriedSettles(h, {});
    TreeLayout(t, s.ctl.self, s.ctl.nextPort);
    ShapeEnds(h.nets[Now(h)], Layout(t), k);
    WithoutOk(t, s.ctl.self, s.ctl.nextPort, k);
    WithoutLayout(t, s.ctl.self, s.ctl.nextPort, k);
    TreeLayout(Without(t, k), s.ctl.self, s.ctl.nextPort);
  }

  // The layout lacks entry k of the array, and has all others.
  lemma {:induction false} ShorterLayout(t: seq<TreeNode>, self: int, nextPort: int, k: nat)
    requires TreeOk(t, self, nextPort) && 0 < k < |t|
    ensures var l := Without(Layout(t), k);
            && |l| == |t| - 1 && A.FromArray(l, t) && (forall i :: 0 <= i < |l| ==> l[i].id != t[k].id)
            && (forall i :: 0 <= i < |l| ==> l[i].main < nextPort)
    ensures A.HasId(t, t[k].id) && t[k].id != -1
  {
    var l := Without(Layout(t), k);
    assert forall i :: 0 <= i < |l| ==> l[i] == PeerOf(t[if i == k then |t| - 1 else i]);
    forall i | 0 <= i < |l|
      ensures l[i].id != t[k].id && A.HasId(t, l[i].id)
    {
      var j := if i == k then |t| - 1 else i;
      assert if j < k then Apart(t, j, k) else Apart(t, k, j);
    }
    forall i, j | 0 <= i < j < |t|
      ensures t[i].id != t[j].id
    {
      assert Apart(t, i, j);
    }
  }

  lemma {:induction false} ShorterFromLonger(l: seq<Peer>, t: seq<TreeNode>, node: TreeNode)
    requires A.FromArray(l, t) && IndexOf(t, node.id) == |t|
    ensures A.FromArray(l, t + [node])
  {
    var u := t + [node];
    forall i | 0 <= i < |l|
      ensures A.HasId(u, l[i].id)
    {
      assert A.HasId(t, l[i].id);
      var j :| 0 <= j < |t| && t[j].id == l[i].id;
      assert u[j].id == l[i].id;
    }
  }

  // A request that is sent where nobody is meant by it.
  lemma SentToNobody(s: Sys, s1: Sys, h: History, all: set<Reply>, req: Request, l: seq<Peer>) returns (h1: History)
    requires Watched(s, h, all) && |h.nets| == Now(h) + 1 && Settled(h, Now(h)) && s.ctl.out == []
    requires GoodLayout(l) && Covers(h.nets[Now(h)], l)
    requires forall i :: 0 <= i < |l| ==> React(l[i].id, Kids(l, i), req).Forward?
    requires s1.ctl == Send(s.ctl, req).(out := []) && s1.queues == PushOut(s.queues, Send(s.ctl, req).out)
    requires s1.net == s.net && s1.replies == s.replies
    ensures Watched(s1, h1, all) && Now(h1) == Now(h) + 1 && s.ctl.serial == Now(h)
    ensures h1.rounds[Now(h)] == Round(req, l, |l|)
  {
    hide Linked, Covers, ProperFlood, PushOut;
    LinkedFacts(s.ctl, s.net, s.queues, h, all);
    NobodyActs(h.nets[Now(h)], l, req);
    SendToNobody(s.ctl, s.net, s.queues, h, all, Round(req, l, |l|));
    h1 := Extend(h, Round(req, l, |l|), h.nets[Now(h)], {});
    SameLinked(Send(s.ctl, req), s1.ctl, s.net, s1.queues, h1, all);
  }

  // ---- An exec of the removed node ----

  lemma ExecIsSent(s: Sys, k: nat)
    requires TreeOk(s.ctl.tree, s.ctl.self, s.ctl.nextPort) && 0 < k < |s.ctl.tree|
    ensures var req := Request(Exec, s.ctl.tree[k].id, 0, 0, 0);
            var s1 := Commanding(s, ExecNode(s.ctl.tree[k].id));
            && s1.ctl == Send(s.ctl, req).(out := []) && s1.queues == PushOut(s.queues, Send(s.ctl, req).out)
            && s1.net == s.net && s1.replies == s.replies
  {
    var c := s.ctl;
    FoundAt(c.tree, c.self, c.nextPort, k);
    Lookup(c.tree, c.self, c.nextPort, c.tree[k].id);
    hide Find, TreeOk;
    assert CmdExec(c, c.tree[k].id) == Send(c, Request(Exec, c.tree[k].id, 0, 0, 0));
  }

  lemma ExecReaches(s: Sys, h: History, all: set<Reply>, ids: seq<int>, b: Book, k: nat, m: Reply)
    returns (h1: History)
    requires AlmostRemoved(s, h, all, ids, b, k, m)
    ensures var id, l := s.ctl.tree[k].id, Without(Layout(s.ctl.tree), k);
            && Watched(Commanding(s, ExecNode(id)), h1, all) && s.ctl.serial == Now(h) && Now(h1) == Now(h) + 1
            && h1.rounds[Now(h)] == Round(Request(Exec, id, 0, 0, 0), l, |l|)
  {
    hide SysInv, Removing, Mirrors, TreeOk, Layout, GoodLayout, Carried, A.FromArray, Covers, Watched, Commanding;
    NetworkIsAhead(s, h, all, ids, b, k, m);
    var t, l := s.ctl.tree, Without(Layout(s.ctl.tree), k);
    ShorterLayout(t, s.ctl.self, s.ctl.nextPort, k);
    ExecIsSent(s, k);
    MirrorsCovers(h.nets[Now(h)], l);
    h1 := SentToNobody(s, Commanding(s, ExecNode(t[k].id)), h, all, Request(Exec, t[k].id, 0, 0, 0), l);
  }

  // An exec of the removed node: with n entries in the array it draws n / 2 answers, all of them "not
  // found", and counts (n + 1) / 2 of them.  If n is even the failure is reported with the last one, in
  // whatever order they come; if n is odd the command never ends.
  lemma LateExec(s: Sys, h: History, all: set<Reply>, ids: seq<int>, b: Book, k: nat, m: Reply)
    returns (more: seq<Action>)
    requires AlmostRemoved(s, h, all, ids, b, k, m)
    ensures var id, n, r := s.ctl.tree[k].id, |s.ctl.tree|, s.ctl.serial;
            Runnable(Commanding(s, ExecNode(id)), more) && AllProcess(more) &&
            var s2 := Run(Commanding(s, ExecNode(id)), more);
            && Drained(s2) && r in s2.ctl.counts && s2.ctl.counts[r] == (n + 1) / 2 && |AnswersOf(s2, r)| == n / 2
            && (n % 2 == 1 ==> NeverCloses(s2, r))
            && (n % 2 == 0 ==> forall ms: seq<Reply> :: multiset(ms) == multiset(AnswersOf(s2, r)) ==>
                                 A.ReportedLast(s2.ctl, ms, ExecNotFound(id)))
  {
    hide SysInv, Removing, Mirrors, TreeOk, Layout, GoodLayout, Carried, A.FromArray, Covers, Watched, Drained,
         NeverCloses, A.ReportedLast, Enabled, Apply, Run, Runnable, AllProcess, RepliesSound, RepliesComplete, Chain;
    NetworkIsAhead(s, h, all, ids, b, k, m);
    var t, id, r := s.ctl.tree, s.ctl.tree[k].id, s.ctl.serial;
    ShorterLayout(t, s.ctl.self, s.ctl.nextPort, k);
    ExecIsSent(s, k);
    var s1 := Commanding(s, ExecNode(id));
    var h1 := ExecReaches(s, h, all, ids, b, k, m);
    NoAnswersYet(s, h, all, r);
    var h2, all2;
    more, h2, all2 := DeliverAll(s1, h1, all);
    var s2 := Run(s1, more);
    AllAnswered(s2, h2, all2, r);
    if |t| % 2 == 1 {
      OnlyNotFound(h2, all2, r);
      NotEnough(s2, r);
    } else {
      forall ms: seq<Reply> | multiset(ms) == multiset(AnswersOf(s2, r))
        ensures A.ReportedLast(s2.ctl, ms, ExecNotFound(id))
      {
        A.UnansweredExec(h2, all2, r, s2.ctl, ms);
      }
    }
  }

  // ---- A create whose parent would be the removed node ----

  // The new node's parent is the removed one.
  predicate UnderRemoved(c: Ctl, k: nat, id: int, pid: int) {
    k == (|c.tree| - 1) / 2 && IndexOf(c.tree, id) == |c.tree| && pid != -1 && pid != c.self
  }

  // The array lists the new node, and its process runs; nothing has been sent yet.
  function WithEntry(s: Sys, id: int, pid: int): Sys {
    var p := Peer(id, s.ctl.nextPort, s.ctl.nextPort + 1);
    Sys(Listing(s.ctl, id, pid), s.net[p.main := Proc(p, NO_CHILDREN)], s.queues[p.main := []], s.replies, s.execs)
  }

  function LateRequest(c: Ctl, k: nat, id: int): Request
    requires k < |c.tree|
  {
    Request(Create, id, c.tree[k].id, c.nextPort, c.nextPort + 1)
  }

  lemma CreateIsSent(s: Sys, k: nat, id: int, pid: int)
    requires TreeOk(s.ctl.tree, s.ctl.self, s.ctl.nextPort) && 0 < k < |s.ctl.tree| && UnderRemoved(s.ctl, k, id, pid)
    ensures var a, req := WithEntry(s, id, pid), LateRequest(s.ctl, k, id);
            var s1 := Commanding(s, CreateNode(id, pid));
            && s1.ctl == Send(a.ctl, req).(out := []) && s1.queues == PushOut(a.queues, Send(a.ctl, req).out)
            && s1.net == a.net && s1.replies == a.replies
  {
    hide Send, PushOut;
    var c, c1 := s.ctl, Listing(s.ctl, id, pid);
    assert c.tree[k].id != -1;
    assert Find(c.tree, id) == NO_NODE;
    assert c1.tree[(|c1.tree| - 2) / 2] == c.tree[k];
    assert CmdCreate(c, id, pid) == Send(c1, LateRequest(c, k, id));
    SendKeepsTree(c1, LateRequest(c, k, id));
  }

  lemma SendKeepsTree(c: Ctl, req: Request)
    ensures Send(c, req).tree == c.tree
  {
  }

  lemma CreateReaches(s: Sys, h: History, all: set<Reply>, ids: seq<int>, b: Book, k: nat, m: Reply, id: int, pid: int)
    returns (h2: History)
    requires AlmostRemoved(s, h, all, ids, b, k, m) && UnderRemoved(s.ctl, k, id, pid)
    ensures var l := Without(Layout(s.ctl.tree), k);
            && Watched(Commanding(s, CreateNode(id, pid)), h2, all) && s.ctl.serial == Now(h) && Now(h2) == Now(h) + 2
            && h2.rounds[Now(h) + 1] == Round(LateRequest(s.ctl, k, id), l, |l|)
  {
    hide SysInv, Removing, Mirrors, TreeOk, Layout, GoodLayout, Carried, A.FromArray, Covers, Commanding,
         IndexOf, Linked, Settled;
    NetworkIsAhead(s, h, all, ids, b, k, m);
    var t, l, a := s.ctl.tree, Without(Layout(s.ctl.tree), k), WithEntry(s, id, pid);
    var p := Peer(id, s.ctl.nextPort, s.ctl.nextPort + 1);
    ShorterLayout(t, s.ctl.self, s.ctl.nextPort, k);
    FreshLayout(t, s.ctl.self, s.ctl.nextPort, k, id);
    CreateIsSent(s, k, id, pid);
    SpawnStep(s.ctl, s.net, s.queues, h, all, id, pid, {});
    var h1 := Extend(h, OwnRound(), h.nets[Now(h)][p.main := Proc(p, NO_CHILDREN)], {p.main});
    OneMoreCovers(h.nets[Now(h)], l, p);
    CarriedSettles(h1, {});
    h2 := SentToNobody(a, Commanding(s, CreateNode(id, pid)), h1, all, LateRequest(s.ctl, k, id), l);
  }

  lemma {:induction false} FreshLayout(t: seq<TreeNode>, self: int, nextPort: int, k: nat, id: int)
    requires TreeOk(t, self, nextPort) && 0 < k < |t| && IndexOf(t, id) == |t|
    ensures forall i :: 0 <= i < |t| - 1 ==> Without(Layout(t), k)[i].id != id
  {
    var l := Without(Layout(t), k);
    assert forall i :: 0 <= i < |l| ==> l[i] == PeerOf(t[if i == k then |t| - 1 else i]);
  }

  // A create whose parent the removed node would be: with n entries in the array before it, it draws
  // n / 2 answers, all of them "not found", counts (n + 2) / 2 of them, and never ends.
  lemma LateCreate(s: Sys, h: History, all: set<Reply>, ids: seq<int>, b: Book, k: nat, m: Reply, id: int, pid: int)
    returns (more: seq<Action>)
    requires AlmostRemoved(s, h, all, ids, b, k, m) && UnderRemoved(s.ctl, k, id, pid)
    ensures var n, r := |s.ctl.tree|, s.ctl.serial + 1;
            Runnable(Commanding(s, CreateNode(id, pid)), more) && AllProcess(more) &&
            var s2 := Run(Commanding(s, CreateNode(id, pid)), more);
            && Drained(s2) && r in s2.ctl.counts && s2.ctl.counts[r] == (n + 2) / 2 && |AnswersOf(s2, r)| == n / 2
            && NeverCloses(s2, r)
  {
    hide SysInv, Removing, Mirrors, TreeOk, Layout, GoodLayout, Carried, A.FromArray, Covers, Watched, Drained,
         NeverCloses, Enabled, Apply, Run, Runnable, AllProcess, RepliesSound, RepliesComplete, Chain, UnderRemoved,
         LateRequest;
    NetworkIsAhead(s, h, all, ids, b, k, m);
    var t, r := s.ctl.tree, s.ctl.serial + 1;
    ShorterLayout(t, s.ctl.self, s.ctl.nextPort, k);
    CreateIsSent(s, k, id, pid);
    var s1 := Commanding(s, CreateNode(id, pid));
    var h1 := CreateReaches(s, h, all, ids, b, k, m, id, pid);
    NoAnswersYet(s, h, all, r);
    var h2, all2;
    more, h2, all2 := DeliverAll(s1, h1, all);
    var s2 := Run(s1, more);
    AllAnswered(s2, h2, all2, r);
    OnlyNotFound(h2, all2, r);
    NotEnough(s2, r);
  }

  // ---- Such states are reached ----

  // -1, 1, 2, ..., n - 1
  function Names(n: nat): (ids: seq<int>)
    requires n > 0
    ensures |ids| == n && ids[0] == -1 && forall i :: 0 < i < n ==> ids[i] == i
  {
    if n == 1 then [-1] else Names(n - 1) + [n - 1]
  }

  lemma {:induction false} WhereNew(ids: seq<int>, id: int)
    requires id !in ids
    ensures Where(ids, id) == |ids|
  {
    if ids != [] {
      WhereNew(ids[1..], id);
    }
  }

  lemma CanMove(s: Sys, h: History, all: set<Reply>, ids: seq<int>, b: Book)
    requires SysInv(s, h, all, ids, b) && !Free(s.ctl)
    ensures s.replies != {} || exists x :: x in s.net && x in s.queues && s.queues[x] != []
  {
    hide Linked, Mode, OpenOk, Ledger;
    LinkedFacts(s.ctl, s.net, s.queues, h, all);
    FreeOrOpen(s, h, ids);
    var r :| r in s.ctl.counts;
    StillOpen(s, h, all, r);
    OpenMoves(s, h, all, r);
  }

  // Every open command can be brought to its end.
  lemma {:induction false} Close(s: Sys, h: History, all: set<Reply>, ids: seq<int>, b: Book)
    returns (acts: seq<Action>, h': History, all': set<Reply>, b': Book)
    requires SysInv(s, h, all, ids, b)
    ensures Runnable(s, acts) && SysInv(Run(s, acts), h', all', ids, b') && Free(Run(s, acts).ctl)
    decreases Work(s, h)
  {
    hide SysInv, Work, Apply, Free;
    acts, h', all', b' := [], h, all, b;
    if !Free(s.ctl) {
      CanMove(s, h, all, ids, b);
      if m :| m in s.replies {
        h', b' := ReceiveWorks(s, h, all, ids, b, m);
        acts, h', all', b' := Close(Apply(s, Receive(m)), h', all', ids, b');
        RunOne(s, Receive(m), acts);
        acts := [Receive(m)] + acts;
      } else {
        var x :| x in s.net && x in s.queues && s.queues[x] != [];
        h', all' := ProcessSpends(s, h, all, ids, b, x, false);
        acts, h', all', b' := Close(Apply(s, Process(x, false)), h', all', ids, b');
        RunOne(s, Process(x, false), acts);
        acts := [Process(x, false)] + acts;
      }
    }
  }

  function AnyPid(self: int): int { if self == 7 then 8 else 7 }

  lemma FreeIsEnabled(s: Sys, id: int, k: int)
    requires Free(s.ctl)
    ensures Enabled(s, User(CreateNode(id, AnyPid(s.ctl.self)))) && Enabled(s, User(RemoveNode(k)))
  {
  }

  // A tree of any size.
  lemma {:induction false} Build(self: int, n: nat)
    returns (acts: seq<Action>, h: History, all: set<Reply>, b: Book)
    requires self != -1 && n > 0
    ensures Runnable(TreeTheorems.Start(self), acts)
    ensures var s := Run(TreeTheorems.Start(self), acts); SysInv(s, h, all, Names(n), b) && Free(s.ctl)
    decreases n
  {
    hide SysInv, Apply, Enabled;
    if n == 1 {
      h := StartKeeps(self);
      acts, all, b := [], {}, BLANK;
    } else {
      acts, h, all, b := Build(self, n - 1);
      var s := Run(TreeTheorems.Start(self), acts);
      var a := User(CreateNode(n - 1, AnyPid(s.ctl.self)));
      FreeIsEnabled(s, n - 1, 0);
      WhereNew(Names(n - 1), n - 1);
      h, b := CreateKeeps(s, h, all, Names(n - 1), b, n - 1, AnyPid(s.ctl.self));
      var more;
      more, h, all, b := Close(Apply(s, a), h, all, Names(n), b);
      RunOne(s, a, more);
      RunAppend(TreeTheorems.Start(self), acts, [a] + more);
      acts := acts + ([a] + more);
    }
  }

  // A script says which entry it removes, and how far it is.
  lemma {:induction false} SameScript(t: seq<TreeNode>, self: int, nextPort: int, k: nat, s: nat, k': nat, s': nat)
    requires TreeOk(t, self, nextPort) && 0 < k < |t| && 0 < k' < |t|
    requires s < StepCount(Layout(t), k) && s' < StepCount(Layout(t), k') && ScriptAt(t, k, s) == ScriptAt(t, k', s')
    ensures k == k' && s == s'
  {
    hide ScriptFor, StepRound, Decode, StandsAt;
    ScriptHoldsSteps(t, self, nextPort, k, s);
    ScriptHoldsSteps(t, self, nextPort, k', s');
    FoundAt(t, self, nextPort, k);
    FoundAt(t, self, nextPort, k');
  }

  // The script for entry k is pending, with `step` commands done.
  predicate PendsAt(c: Ctl, k: nat, step: nat) {
    0 < k < |c.tree| && step < StepCount(Layout(c.tree), k) && c.scripts == [ScriptAt(c.tree, k, step)]
  }

  // The only removal there can be is the one whose script is pending.
  lemma StillRemoving(s: Sys, h: History, all: set<Reply>, ids: seq<int>, b: Book, k: nat, step: nat)
    requires SysInv(s, h, all, ids, b) && PendsAt(s.ctl, k, step)
    ensures |h.nets| == Now(h) + 1 && Removing(s, h, ids, k, step)
  {
    hide Linked, Opens, Ledger, ScriptFor, Mirrors, Carried, Shape, StepRound, TailIds, Ids, Layout, StepCount, TreeOk;
    LinkedFacts(s.ctl, s.net, s.queues, h, all);
    var k': nat, step': nat :| Removing(s, h, ids, k', step');
    SameScript(s.ctl.tree, s.ctl.self, s.ctl.nextPort, k, step, k', step');
  }

  // A removal whose last step is sent goes through all of its steps.
  lemma RemovalBegins(s: Sys, h: History, all: set<Reply>, ids: seq<int>, b: Book, k: nat)
    returns (h': History, b': Book, ids': seq<int>, step: nat)
    requires SysInv(s, h, all, ids, b) && Free(s.ctl) && 0 < k < |s.ctl.tree| && LastIsSent(Layout(s.ctl.tree), k)
    ensures Enabled(s, User(RemoveNode(s.ctl.tree[k].id)))
    ensures var s' := Apply(s, User(RemoveNode(s.ctl.tree[k].id)));
            && SysInv(s', h', all, ids', b') && s'.ctl.tree == s.ctl.tree
            && |h'.nets| == Now(h') + 1 && Removing(s', h', ids', k, step)
  {
    hide SysInv, Linked, Mirrors, Shape, Outcome, Removing, PushNext, ScriptFor, TreeOk, Carried, StepsContinue,
         Layout, StepRound, StepCount, Free;
    var c, id := s.ctl, s.ctl.tree[k].id;
    FreeIsEnabled(s, 0, id);
    h', b' := RemoveKeeps(s, h, all, ids, b, id);
    ids' := Commanded(ids, RemoveNode(id));
    var h1 := ScriptStarts(s, h, all, ids, b, k);
    step := ScriptPending(c.(scripts := [ScriptFor(c.tree, id)]),
                          PushNext(c.(scripts := [ScriptFor(c.tree, id)]), ScriptFor(c.tree, id)), h1, k);
    RemoveIsPushed(s, h, all, ids, b, k);
    StillRemoving(Apply(s, User(RemoveNode(id))), h', all, ids', b', k, step);
  }

  lemma ScriptStarts(s: Sys, h: History, all: set<Reply>, ids: seq<int>, b: Book, k: nat) returns (h1: History)
    requires SysInv(s, h, all, ids, b) && Free(s.ctl) && 0 < k < |s.ctl.tree| && LastIsSent(Layout(s.ctl.tree), k)
    ensures var c0 := s.ctl.(scripts := [ScriptFor(s.ctl.tree, s.ctl.tree[k].id)]);
            |h1.nets| == Now(h1) + 1 && StepsContinue(c0, PushNext(c0, c0.scripts[0]), h1, k)
  {
    hide Linked, Mirrors, Shape, Outcome, Growing, Removing, PushNext, ScriptFor, TreeOk, StepsContinue,
         StepRound, StepCount, Opens, Ledger, Layout, Ids, TailIds;
    var c := s.ctl;
    LinkedFacts(c, s.net, s.queues, h, all);
    CalmIsSteady(s, h, ids);
    TreeLayout(c.tree, c.self, c.nextPort);
    ShapeBegins(h.nets[Now(h)], Layout(c.tree), k);
    FreshScript(c.tree, k);
    var c0 := c.(scripts := [ScriptFor(c.tree, c.tree[k].id)]);
    SameLinked(c, c0, s.net, s.queues, h, all);
    h1 := PushNextRuns(c0, s.net, s.queues, h, all, k, 0);
  }

  lemma ScriptPending(c0: Ctl, c: Ctl, h: History, k: nat) returns (step: nat)
    requires |h.nets| == Now(h) + 1 && StepsContinue(c0, c, h, k)
    ensures c.tree == c0.tree && PendsAt(c, k, step)
  {
    step :| StepSent(c, h, k, step);
  }

  lemma RemoveIsPushed(s: Sys, h: History, all: set<Reply>, ids: seq<int>, b: Book, k: nat)
    requires SysInv(s, h, all, ids, b) && Free(s.ctl) && 0 < k < |s.ctl.tree|
    ensures var id := s.ctl.tree[k].id;
            var c2 := PushNext(s.ctl.(scripts := [ScriptFor(s.ctl.tree, id)]), ScriptFor(s.ctl.tree, id));
            Commanding(s, RemoveNode(id)).ctl == c2.(out := [])
  {
    hide Linked, Opens, Ledger, Mode, PushNext, ScriptFor;
    var c, id := s.ctl, s.ctl.tree[k].id;
    LinkedFacts(c, s.net, s.queues, h, all);
    FoundAt(c.tree, c.self, c.nextPort, k);
    Lookup(c.tree, c.self, c.nextPort, id);
    assert [ScriptFor(c.tree, id)] + c.scripts == [ScriptFor(c.tree, id)];
  }

  predicate Awaited(s: Sys, m: Reply) { m in s.replies && m.uuid in s.ctl.counts && m.code != NotFound }

  // The answer to a step finds the step carried out.
  lemma StepAnswered(s: Sys, h: History, all: set<Reply>, ids: seq<int>, b: Book, k: nat, step: nat, m: Reply)
    requires SysInv(s, h, all, ids, b) && |h.nets| == Now(h) + 1 && Removing(s, h, ids, k, step) && Awaited(s, m)
    ensures var c1 := s.ctl.(counts := s.ctl.counts[m.uuid := s.ctl.counts[m.uuid] - 1]);
            && Linked(c1, s.net, s.queues, h, all) && Quiet(h) && c1.out == [] && PendsAt(c1, k, step)
            && Shape(h.nets[Now(h)], Layout(c1.tree), k, step + 1)
            && var req := StepRound(Layout(c1.tree), k, step).req;
            && m.cmd == req.cmd && m.id == req.id
            && ReceiveProcess(s.ctl, m).tree == RecRemove(c1, req.cmd, req.id, Ok, c1.counts[m.uuid]).tree
            && ReceiveProcess(s.ctl, m).scripts == RecRemove(c1, req.cmd, req.id, Ok, c1.counts[m.uuid]).scripts
  {
    hide Linked, RepliesSound, Chain, Clocks, Settled, TreeOk, Shape, StepRound, ReceiveProcess, ScriptFor, RecRemove,
         Layout, Ids, Mode, TailIds, Opens, Ledger, StepCount;
    LinkedFacts(s.ctl, s.net, s.queues, h, all);
    FinalAnswer(h, all, m);
    FinalSettles(h, all, m, {m.uuid});
    assert {m.uuid} - {m.uuid} == {};
    StepRoundFits(Layout(s.ctl.tree), k, step);
    StepProcess(s.ctl, m);
    SameLinked(s.ctl, s.ctl.(counts := s.ctl.counts[m.uuid := s.ctl.counts[m.uuid] - 1]), s.net, s.queues, h, all);
  }

  // Before the last step, the answer to a step leads to the next one that is sent.
  lemma NextStep(s: Sys, h: History, all: set<Reply>, ids: seq<int>, b: Book, k: nat, step: nat, m: Reply)
    returns (next: nat)
    requires Awaited(s, m) && 0 < k < |s.ctl.tree|
    requires LastIsSent(Layout(s.ctl.tree), k) && step + 1 < StepCount(Layout(s.ctl.tree), k)
    requires |h.nets| == Now(h) + 1 && Removing(s, h, ids, k, step) && SysInv(s, h, all, ids, b)
    ensures var c := ReceiveProcess(s.ctl, m); c.tree == s.ctl.tree && PendsAt(c, k, next)
  {
    hide Linked, Quiet, Shape, StepRound, ScriptFor, RecRemove, Outcome, Layout, StepsContinue, SysInv, LastIsSent,
         StepCount, Removing, ReceiveProcess;
    StepAnswered(s, h, all, ids, b, k, step, m);
    var c1 := s.ctl.(counts := s.ctl.counts[m.uuid := s.ctl.counts[m.uuid] - 1]);
    var h' := AdvanceRuns(c1, s.net, s.queues, h, all, k, step, c1.counts[m.uuid]);
    next := ScriptPending(c1, RecRemove(c1, m.cmd, m.id, Ok, c1.counts[m.uuid]), h', k);
  }

  // A reply that decides nothing leaves the removal where it is.
  lemma UndecidedStays(s: Sys, h: History, all: set<Reply>, ids: seq<int>, b: Book, m: Reply)
    requires SysInv(s, h, all, ids, b) && m in s.replies && !Awaited(s, m)
    ensures var c := Apply(s, Receive(m)).ctl; c.tree == s.ctl.tree && c.scripts == s.ctl.scripts
  {
    hide Linked, Mode, Ledger, OpenOk, RepliesSound, Chain, Clocks, Settled, TreeOk, ReceiveProcess;
    LinkedFacts(s.ctl, s.net, s.queues, h, all);
    if m.uuid in s.ctl.counts {
      assert OpenOk(h, all, s.replies, m.uuid, s.ctl.counts[m.uuid]);
      StillCounting(h, all, s.replies, m, s.ctl.counts[m.uuid]);
      NotFoundOnlyCounts(s.ctl, m);
    } else {
      StaleReceived(s.ctl, m);
    }
  }

  lemma StaleReceived(c: Ctl, m: Reply)
    requires m.uuid !in c.counts
    ensures ReceiveProcess(c, m) == c
  {
  }

  lemma {:induction false} ToLastStep(s: Sys, h: History, all: set<Reply>, ids: seq<int>, b: Book, k: nat, step: nat)
    returns (acts: seq<Action>, h': History, all': set<Reply>, b': Book, m: Reply)
    requires SysInv(s, h, all, ids, b) && |h.nets| == Now(h) + 1 && Removing(s, h, ids, k, step)
    requires LastIsSent(Layout(s.ctl.tree), k)
    ensures Runnable(s, acts) && AlmostRemoved(Run(s, acts), h', all', ids, b', k, m)
    ensures Run(s, acts).ctl.tree == s.ctl.tree
    decreases Work(s, h)
  {
    hide SysInv, Work, Linked, Layout, StepRound, Shape, ScriptFor, Mirrors, Carried, LastIsSent, Ids, TailIds,
         StepCount, ReceiveProcess;
    acts, h', all', b' := [], h, all, b;
    var c := s.ctl;
    if r :| Awaited(s, r) {
      m := r;
      if step + 1 < StepCount(Layout(c.tree), k) {
        var next := NextStep(s, h, all, ids, b, k, step, m);
        var s1 := Apply(s, Receive(m));
        h', b' := ReceiveWorks(s, h, all, ids, b, m);
        StillRemoving(s1, h', all, ids, b', k, next);
        acts, h', all', b', m := ToLastStep(s1, h', all, ids, b', k, next);
        RunOne(s, Receive(r), acts);
        acts := [Receive(r)] + acts;
      }
    } else {
      CanMove(s, h, all, ids, b);
      var a: Action;
      if r :| r in s.replies {
        a := Receive(r);
        UndecidedStays(s, h, all, ids, b, r);
        h', b' := ReceiveWorks(s, h, all, ids, b, r);
      } else {
        var x :| x in s.net && x in s.queues && s.queues[x] != [];
        a := Process(x, false);
        h', all' := ProcessSpends(s, h, all, ids, b, x, false);
      }
      StillRemoving(Apply(s, a), h', all', ids, b', k, step);
      acts, h', all', b', m := ToLastStep(Apply(s, a), h', all', ids, b', k, step);
      RunOne(s, a, acts);
      acts := [a] + acts;
    }
  }

  // A tree of n entries in which entry k has been removed, but for the last answer.
  lemma Reached(self: int, n: nat, k: nat)
    returns (acts: seq<Action>, h: History, all: set<Reply>, ids: seq<int>, b: Book, m: Reply)
    requires self != -1 && 0 < k < n && forall c: seq<Peer> :: |c| == n ==> LastIsSent(c, k)
    ensures Runnable(TreeTheorems.Start(self), acts)
    ensures var s := Run(TreeTheorems.Start(self), acts);
            AlmostRemoved(s, h, all, ids, b, k, m) && Ids(s.ctl.tree) == Names(n)
  {
    hide SysInv, Enabled, Apply, Removing, AlmostRemoved, LastIsSent;
    acts, h, all, b := Build(self, n);
    var s := Run(TreeTheorems.Start(self), acts);
    BuiltIds(s, h, all, Names(n), b);
    var step;
    h, b, ids, step := RemovalBegins(s, h, all, Names(n), b, k);
    var a, more := User(RemoveNode(s.ctl.tree[k].id)), acts;
    more, h, all, b, m := ToLastStep(Apply(s, a), h, all, ids, b, k, step);
    RunOne(s, a, more);
    RunAppend(TreeTheorems.Start(self), acts, [a] + more);
    acts := acts + ([a] + more);
  }

  lemma BuiltIds(s: Sys, h: History, all: set<Reply>, ids: seq<int>, b: Book)
    requires SysInv(s, h, all, ids, b) && Free(s.ctl)
    ensures Ids(s.ctl.tree) == ids && |s.ctl.tree| == |ids|
  {
    hide Linked, Opens, Ledger, Mirrors, Carried, TailIds;
    LinkedFacts(s.ctl, s.net, s.queues, h, all);
    CalmIsSteady(s, h, ids);
  }

  // ---- Two runs ----

  // Five entries, and an exec of the last one after it has been removed: two answers, of which three
  // are counted.
  lemma ExecHangs(self: int) returns (acts: seq<Action>, more: seq<Action>)
    requires self != -1
    ensures Runnable(TreeTheorems.Start(self), acts)
    ensures var s := Run(TreeTheorems.Start(self), acts);
            var r, s1 := s.ctl.serial, Commanding(s, ExecNode(4));
            && Ids(s.ctl.tree) == [-1, 1, 2, 3, 4] && Runnable(s1, more) && AllProcess(more)
            && var s2 := Run(s1, more);
            && Drained(s2) && r in s2.ctl.counts && s2.ctl.counts[r] == 3 && |AnswersOf(s2, r)| == 2
            && NeverCloses(s2, r)
  {
    hide AlmostRemoved, Run, Runnable, Commanding, NeverCloses, Drained, AllProcess, LastIsSent;
    LastOfFive();
    var h, all, ids, b, m;
    acts, h, all, ids, b, m := Reached(self, 5, 4);
    var s := Run(TreeTheorems.Start(self), acts);
    assert Ids(s.ctl.tree)[4] == 4;
    more := LateExec(s, h, all, ids, b, 4, m);
  }

  lemma LastOfFive()
    ensures forall c: seq<Peer> :: |c| == 5 ==> LastIsSent(c, 4)
  {
  }

  // Seven entries, and a create whose parent would be entry 3, which has just been removed: three
  // answers, of which four are counted.
  lemma CreateHangs(self: int) returns (acts: seq<Action>, pid: int, more: seq<Action>)
    requires self != -1
    ensures Runnable(TreeTheorems.Start(self), acts)
    ensures var s := Run(TreeTheorems.Start(self), acts);
            var r, s1 := s.ctl.serial + 1, Commanding(s, CreateNode(7, pid));
            && Ids(s.ctl.tree) == [-1, 1, 2, 3, 4, 5, 6] && pid != -1 && pid != s.ctl.self
            && Runnable(s1, more) && AllProcess(more)
            && var s2 := Run(s1, more);
            && Drained(s2) && r in s2.ctl.counts && s2.ctl.counts[r] == 4 && |AnswersOf(s2, r)| == 3
            && NeverCloses(s2, r)
  {
    hide AlmostRemoved, Run, Runnable, Commanding, NeverCloses, Drained, AllProcess, LastIsSent;
    LastOfSeven();
    var h, all, ids, b, m;
    acts, h, all, ids, b, m := Reached(self, 7, 3);
    var s := Run(TreeTheorems.Start(self), acts);
    pid := AnyPid(s.ctl.self);
    SevenIsNew(s.ctl.tree);
    more := LateCreate(s, h, all, ids, b, 3, m, 7, pid);
  }

  lemma LastOfSeven()
    ensures forall c: seq<Peer> :: |c| == 7 ==> LastIsSent(c, 3)
  {
  }

  lemma {:induction false} SevenIsNew(t: seq<TreeNode>)
    requires Ids(t) == Names(7)
    ensures IndexOf(t, 7) == 7 && |t| == 7 && Ids(t) == [-1, 1, 2, 3, 4, 5, 6]
  {
    assert forall i :: 0 <= i < 7 ==> t[i].id == Names(7)[i];
  }
}
