// What every run of the node tree guarantees, stated without the history.
module TreeTheorems {
  import opened Overlay
  import opened HeapShape
  import opened Naturals
  import opened Flood
  import opened Answers
  import opened Counting
  import opened Phases
  import opened Shapes
  import opened TreeArray
  import opened Controller
  import opened Scripts
  import opened TreeSystem
  import opened TreeLedger
  import opened TreeRuns

  // ---- Runs ----

  function Start(self: int): Sys {
    Sys(Ctl(self, [TreeNode(-1, self, 0, 0)], NO_CHILDREN, [], map[], map[], 0, 5002, [], []), map[], map[], {}, {})
  }

  predicate Runnable(s: Sys, acts: seq<Action>)
    decreases |acts|
  {
    acts == [] || (Enabled(s, acts[0]) && Runnable(Apply(s, acts[0]), acts[1..]))
  }

  function Run(s: Sys, acts: seq<Action>): Sys
    requires Runnable(s, acts)
    decreases |acts|
  {
    if acts == [] then s else Run(Apply(s, acts[0]), acts[1..])
  }

  function Meant(ids: seq<int>, a: Action): seq<int> { if a.User? then Commanded(ids, a.wish) else ids }

  // The user's commands carried out one after the other on a plain list of ids.
  function Sequential(ids: seq<int>, acts: seq<Action>): seq<int>
    decreases |acts|
  {
    if acts == [] then ids else Sequential(Meant(ids, acts[0]), acts[1..])
  }

  function Given(ids: seq<int>, a: Action): seq<Order> { if a.User? then [Order(a.wish, ids)] else [] }

  // The user's commands, each with the ids the ones before have left.
  function Orders(ids: seq<int>, acts: seq<Action>): seq<Order>
    decreases |acts|
  {
    if acts == [] then [] else Given(ids, acts[0]) + Orders(Meant(ids, acts[0]), acts[1..])
  }

  // At every moment of the run the reports made so far answer commands given so far, of which there
  // are `given` to begin with.
  predicate InTime(s: Sys, given: nat, acts: seq<Action>, told: seq<nat>)
    requires Runnable(s, acts)
    decreases |acts|
  {
    && |s.ctl.log| <= |told| && (forall j :: 0 <= j < |s.ctl.log| ==> told[j] < given)
    && (acts == [] || InTime(Apply(s, acts[0]), if acts[0].User? then given + 1 else given, acts[1..], told))
  }

  lemma BookInTime(s: Sys, h: History, all: set<Reply>, ids: seq<int>, b: Book, told: seq<nat>)
    requires SysInv(s, h, all, ids, b) && b.told <= told
    ensures |s.ctl.log| <= |told| && forall j :: 0 <= j < |s.ctl.log| ==> told[j] < |b.orders|
  {
    hide Linked, Mode, Opens, Fits;
    OrdersKept(b);
  }

  lemma StepKeeps(s: Sys, h: History, all: set<Reply>, ids: seq<int>, b: Book, a: Action)
    returns (h': History, all': set<Reply>, b': Book)
    requires SysInv(s, h, all, ids, b) && Enabled(s, a)
    ensures SysInv(Apply(s, a), h', all', Meant(ids, a), b')
    ensures b'.orders == b.orders + Given(ids, a) && b.told <= b'.told && |b'.told| <= |b.told| + 1
    ensures !a.Process? ==> all' == all
  {
    hide SysInv, Enabled, Apply, Commanded;
    all', b' := all, b;
    match a
    case User(CreateNode(id, pid)) => h', b' := CreateKeeps(s, h, all, ids, b, id, pid);
    case User(RemoveNode(id)) => h', b' := RemoveKeeps(s, h, all, ids, b, id);
    case User(ExecNode(id)) =>
      ExecMeans(ids, id);
      h', b' := ExecKeeps(s, h, all, ids, b, id);
    case Process(x, custom) => h', all' := ProcessKeeps(s, h, all, ids, b, x, custom);
    case Receive(m) =>
      ReplyPending(s, m);
      h', b' := ReceiveKeeps(s, h, all, ids, b, m);
  }

  lemma ExecMeans(ids: seq<int>, id: int)
    ensures Commanded(ids, ExecNode(id)) == ids
  {
  }

  lemma ReplyPending(s: Sys, m: Reply)
    requires Enabled(s, Receive(m))
    ensures m in s.replies
  {
  }

  function Dawn(): History { History([], [map[0 := Proc(NO_PEER, NO_CHILDREN)]], map[0 := 0]) }

  lemma StartFlood(self: int)
    requires self != -1
    ensures FloodInv(Dawn(), Whole(map[], NO_CHILDREN), map[]) && AnswersInv(Dawn(), {})
  {
  }

  lemma StartTree(self: int)
    requires self != -1
    ensures TreeOk([TreeNode(-1, self, 0, 0)], self, 5002)
  {
  }

  lemma StartGrowing(self: int)
    ensures Growing(Start(self), Dawn(), [-1])
  {
    hide TreeOk, Linked;
    var l, h := Layout(Start(self).ctl.tree), Dawn();
    assert l == [NO_PEER];
    assert SpotOk(h.nets[0], l, 0, Kids(l, 0));
    assert Listed(l, 0);
    assert Ids(Start(self).ctl.tree) == [-1];
  }

  const BLANK := Book([], [], map[])

  lemma StartKeeps(self: int) returns (h: History)
    requires self != -1
    ensures SysInv(Start(self), h, {}, [-1], BLANK)
  {
    hide FloodInv, AnswersInv, TreeOk, Growing;
    h := Dawn();
    StartFlood(self);
    StartTree(self);
    StartGrowing(self);
  }

  lemma {:induction false} RunKeeps(s: Sys, h: History, all: set<Reply>, ids: seq<int>, b: Book, acts: seq<Action>)
    returns (h': History, all': set<Reply>, b': Book)
    requires SysInv(s, h, all, ids, b) && Runnable(s, acts)
    ensures SysInv(Run(s, acts), h', all', Sequential(ids, acts), b')
    ensures b'.orders == b.orders + Orders(ids, acts) && b.told <= b'.told
    ensures InTime(s, |b.orders|, acts, b'.told)
    decreases |acts|
  {
    hide SysInv, Apply, Enabled, Meant;
    h', all', b' := h, all, b;
    if acts != [] {
      h', all', b' := StepKeeps(s, h, all, ids, b, acts[0]);
      h', all', b' := RunKeeps(Apply(s, acts[0]), h', all', Meant(ids, acts[0]), b', acts[1..]);
    }
    BookInTime(s, h, all, ids, b, b'.told);
  }

  // ---- Once everything is settled, the processes are what the history says they should be ----

  lemma QuietNet(h: History, net: Net, x: int)
    requires TimeInv(h, net) && Quiet(h)
    ensures x in net <==> x in h.nets[Now(h)]
    ensures x in net ==> net[x] == h.nets[Now(h)][x]
  {
    if x != 0 && x in net {
      Unchanged(h, x, h.clock[x], Now(h));
    } else if x != 0 && x in h.nets[Now(h)] {
      KnownSince(h, x, Now(h));
    }
  }

  lemma SteadyMirrors(s: Sys, h: History, all: set<Reply>, ids: seq<int>)
    requires Linked(s.ctl, s.net, s.queues, h, all) && |h.nets| == Now(h) + 1 && Steady(s, h, ids)
    ensures Mirrors(Whole(s.net, s.ctl.slots), Layout(s.ctl.tree))
  {
    var w := Whole(s.net, s.ctl.slots);
    forall x
      ensures x in w <==> x in h.nets[Now(h)]
      ensures x in w ==> w[x] == h.nets[Now(h)][x]
    {
      QuietNet(h, w, x);
    }
    SameMirrors(h.nets[Now(h)], w, Layout(s.ctl.tree));
  }

  lemma SameMirrors(n: Net, w: Net, c: seq<Peer>)
    requires Mirrors(n, c) && forall x :: (x in w <==> x in n) && (x in w ==> w[x] == n[x])
    ensures Mirrors(w, c)
  {
    forall i | 0 <= i < |c|
      ensures SpotOk(w, c, i, Kids(c, i))
    {
      assert SpotOk(n, c, i, Kids(c, i));
    }
    forall x | x in w
      ensures Listed(c, x)
    {
      assert x in n;
    }
  }

  // Whatever the interleaving, whenever no removal is open the array is exactly what the commands
  // mean on a plain list (append; fill the hole with the last); and whenever no create is open
  // either, the running processes are connected as the array heap of that list.
  lemma {:induction false} RunRefinesArray(self: int, acts: seq<Action>)
    requires self != -1 && Runnable(Start(self), acts)
    ensures var s := Run(Start(self), acts);
            && (s.ctl.scripts == [] ==> Ids(s.ctl.tree) == Sequential([-1], acts))
            && TreeOk(s.ctl.tree, s.ctl.self, s.ctl.nextPort)
    ensures var s := Run(Start(self), acts);
            Calm(s) ==>
              && Mirrors(Whole(s.net, s.ctl.slots), Layout(s.ctl.tree))
              && s.ctl.pings.Keys == TailIds(s.ctl.tree, |s.ctl.tree|)
  {
    hide Linked, Steady, Growing, Removing, TreeOk, Mirrors, Opens, Ledger;
    var h0 := StartKeeps(self);
    var h, all, b := RunKeeps(Start(self), h0, {}, [-1], BLANK, acts);
    var s := Run(Start(self), acts);
    LinkedFacts(s.ctl, s.net, s.queues, h, all);
    if s.ctl.scripts == [] {
      NoRemoval(s, h, Sequential([-1], acts));
      GrowingParts(s, h, Sequential([-1], acts));
    }
    if Calm(s) {
      CalmIsSteady(s, h, Sequential([-1], acts));
      SteadyMirrors(s, h, all, Sequential([-1], acts));
      SteadyIds(s, h, Sequential([-1], acts));
    }
  }

  lemma SteadyIds(s: Sys, h: History, ids: seq<int>)
    requires |h.nets| == Now(h) + 1 && Steady(s, h, ids)
    ensures Ids(s.ctl.tree) == ids && s.ctl.pings.Keys == TailIds(s.ctl.tree, |s.ctl.tree|)
  {
  }

  // ---- What is reported ----

  // Every report answers a command of its own, given before it, with what that command means (so no
  // removal is ever given up, no live node reported missing, no script or list read past its end),
  // and when nothing is open every command has been answered.
  lemma RunAnswersEach(self: int, acts: seq<Action>) returns (told: seq<nat>)
    requires self != -1 && Runnable(Start(self), acts)
    ensures var s, orders := Run(Start(self), acts), Orders([-1], acts);
            && |told| == |s.ctl.log| && (forall j :: 0 <= j < |told| ==> told[j] < |orders|)
            && (forall i, j :: 0 <= i < j < |told| ==> told[i] != told[j])
            && (forall j :: 0 <= j < |told| ==> Fits(s.ctl.log[j], orders[told[j]]))
            && InTime(Start(self), 0, acts, told)
            && |orders| == |told| + |s.ctl.counts|
            && (Free(s.ctl) ==> |told| == |orders| && forall i: nat :: i < |orders| ==> i in told)
  {
    hide Linked, Mode, Opens, Fits;
    var h0 := StartKeeps(self);
    var h, all, b := RunKeeps(Start(self), h0, {}, [-1], BLANK, acts);
    var s := Run(Start(self), acts);
    told := b.told;
    OpenOrders(b);
    SameSize(b.open, s.ctl.counts);
    if Free(s.ctl) {
      ClosedBook(b, |b.orders|);
    }
  }

  lemma SameSize(a: map<nat, nat>, c: map<nat, int>)
    requires a.Keys == c.Keys
    ensures |a| == |c|
  {
    assert |a| == |a.Keys| && |c| == |c.Keys|;
  }

  // Every user command of the run finds the controller free.
  predicate OneAtATime(s: Sys, acts: seq<Action>)
    requires Runnable(s, acts)
    decreases |acts|
  {
    acts == [] || ((acts[0].User? ==> Free(s.ctl)) && OneAtATime(Apply(s, acts[0]), acts[1..]))
  }

  predicate Sits(b: Book, j: nat) { j < |b.told| ==> b.told[j] == j }

  ghost predicate Straight(b: Book) { forall j: nat :: Sits(b, j) }

  lemma StepStraight(b: Book, b': Book)
    requires BookOk(b) && BookOk(b') && Straight(b) && b.told <= b'.told && |b'.told| <= |b.told| + 1
    requires |b'.orders| <= |b.told| + 1
    ensures Straight(b')
  {
    forall j: nat
      ensures Sits(b', j)
    {
      assert Sits(b, j);
      assert j < |b'.told| ==> Sits(b, b'.told[j]);
    }
  }

  lemma FewOpen(s: Sys, h: History, all: set<Reply>, ids: seq<int>, b: Book)
    requires SysInv(s, h, all, ids, b)
    ensures BookOk(b) && (Free(s.ctl) ==> |b.orders| == |b.told|)
  {
    hide Linked, Mode, Opens, BookOk, LogFits;
    if Free(s.ctl) {
      ClosedBook(b, |b.orders|);
    }
  }

  lemma NextStraight(s: Sys, h: History, all: set<Reply>, ids: seq<int>, b: Book, a: Action)
    returns (h': History, all': set<Reply>, b': Book)
    requires SysInv(s, h, all, ids, b) && Enabled(s, a) && (a.User? ==> Free(s.ctl))
    requires Straight(b) && |b.orders| <= |b.told| + 1
    ensures SysInv(Apply(s, a), h', all', Meant(ids, a), b') && b'.orders == b.orders + Given(ids, a)
    ensures Straight(b') && |b'.orders| <= |b'.told| + 1
  {
    hide SysInv, Apply, Enabled, Meant, BookOk, Straight, Free;
    h', all', b' := StepKeeps(s, h, all, ids, b, a);
    FewOpen(s, h, all, ids, b);
    FewOpen(Apply(s, a), h', all', Meant(ids, a), b');
    StepStraight(b, b');
  }

  lemma {:induction false} RunStraight(s: Sys, h: History, all: set<Reply>, ids: seq<int>, b: Book, acts: seq<Action>)
    returns (h': History, all': set<Reply>, b': Book)
    requires SysInv(s, h, all, ids, b) && Runnable(s, acts) && OneAtATime(s, acts)
    requires Straight(b) && |b.orders| <= |b.told| + 1
    ensures SysInv(Run(s, acts), h', all', Sequential(ids, acts), b') && Straight(b')
    ensures b'.orders == b.orders + Orders(ids, acts)
    decreases |acts|
  {
    hide SysInv, Apply, Enabled, Meant, Given, Straight, Free, OneAtATime;
    h', all', b' := h, all, b;
    if acts != [] {
      OneByOne(s, acts);
      h', all', b' := NextStraight(s, h, all, ids, b, acts[0]);
      h', all', b' := RunStraight(Apply(s, acts[0]), h', all', Meant(ids, acts[0]), b', acts[1..]);
    }
  }

  lemma {:induction false} OneByOne(s: Sys, acts: seq<Action>)
    requires Runnable(s, acts) && OneAtATime(s, acts) && acts != []
    ensures (acts[0].User? ==> Free(s.ctl)) && Enabled(s, acts[0])
    ensures Runnable(Apply(s, acts[0]), acts[1..]) && OneAtATime(Apply(s, acts[0]), acts[1..])
  {
  }

  lemma StraightFits(b: Book, log: seq<Report>)
    requires BookOk(b) && LogFits(b, log) && Straight(b)
    ensures |log| <= |b.orders| && forall j :: 0 <= j < |log| ==> Fits(log[j], b.orders[j])
  {
    hide Fits;
    forall j | 0 <= j < |log|
      ensures j < |b.orders| && Fits(log[j], b.orders[j])
    {
      assert Sits(b, j);
    }
    if |log| > 0 {
      assert Sits(b, |log| - 1);
    }
  }

  lemma StartStraight()
    ensures Straight(BLANK)
  {
  }

  lemma {:induction false} StraightLog(s0: Sys, h0: History, ids: seq<int>, acts: seq<Action>)
    requires SysInv(s0, h0, {}, ids, BLANK) && Runnable(s0, acts) && OneAtATime(s0, acts)
    ensures var s, orders := Run(s0, acts), Orders(ids, acts);
            && |s.ctl.log| <= |orders| && (Free(s.ctl) ==> |s.ctl.log| == |orders|)
            && forall j :: 0 <= j < |s.ctl.log| ==> Fits(s.ctl.log[j], orders[j])
  {
    hide SysInv, Fits, BookOk, Straight, Run, Runnable, OneAtATime, Orders, Free;
    StartStraight();
    var h, all, b := RunStraight(s0, h0, {}, ids, BLANK, acts);
    var s := Run(s0, acts);
    assert b.orders == Orders(ids, acts);
    LedgerOf(s, h, all, Sequential(ids, acts), b);
    FewOpen(s, h, all, Sequential(ids, acts), b);
    StraightFits(b, s.ctl.log);
  }

  // Given one at a time, the commands are answered in order: the log is their sequential meaning.
  lemma {:induction false} LogIsSequential(self: int, acts: seq<Action>)
    requires self != -1 && Runnable(Start(self), acts) && OneAtATime(Start(self), acts)
    ensures var s, orders := Run(Start(self), acts), Orders([-1], acts);
            && |s.ctl.log| <= |orders| && (Free(s.ctl) ==> |s.ctl.log| == |orders|)
            && forall j :: 0 <= j < |s.ctl.log| ==> Fits(s.ctl.log[j], orders[j])
  {
    hide SysInv, Fits, Run, Runnable, OneAtATime, Orders, Free;
    var h0 := StartKeeps(self);
    StraightLog(Start(self), h0, [-1], acts);
  }

  lemma LedgerOf(s: Sys, h: History, all: set<Reply>, ids: seq<int>, b: Book)
    requires SysInv(s, h, all, ids, b)
    ensures BookOk(b) && LogFits(b, s.ctl.log)
  {
  }

  // ---- Distances ----

  function Depth(i: nat): nat { if i == 0 then 0 else 1 + Depth(Parent(i)) }

  // x can be reached from the control node over exactly d child slots.
  ghost predicate Hops(n: Net, x: int, d: nat)
    decreases d
  {
    if d == 0 then x == 0 else exists y :: PointsAt(n, y, x) && Hops(n, y, d - 1)
  }

  lemma {:induction false} DepthIsLog(i: nat)
    ensures Pow2(Depth(i)) <= i + 1 < 2 * Pow2(Depth(i))
  {
    if i > 0 {
      DepthIsLog(Parent(i));
    }
  }

  // Every node of a mirrored network is at most log2(size) hops from the control node.
  lemma {:induction false} MirroredHops(n: Net, c: seq<Peer>, i: nat)
    requires GoodLayout(c) && Mirrors(n, c) && i < |c|
    ensures Hops(n, c[i].main, Depth(i)) && Pow2(Depth(i)) <= |c|
  {
    DepthIsLog(i);
    if i > 0 {
      MirroredHops(n, c, Parent(i));
      assert SpotOk(n, c, Parent(i), Kids(c, Parent(i)));
      assert i == 2 * Parent(i) + 1 || i == 2 * Parent(i) + 2;
      assert PointsAt(n, c[Parent(i)].main, c[i].main);
    }
  }

  // ---- Nothing gets stuck, and every command comes to its end ----

  // Between the controller and a node that request r is meant for, somebody still has it.
  lemma {:induction false} SomebodyHasIt(h: History, net: Net, qs: Queues, r: nat, i: nat) returns (x: int)
    requires FloodInv(h, net, qs) && Vis(h, r, i) && i > 0 && At(h, r, i) in h.clock && h.clock[At(h, r, i)] <= r
    ensures x in qs && qs[x] != []
  {
    VisIsFlood(h, r, i);
    var p := At(h, r, Parent(i));
    assert p in h.clock;
    if r < h.clock[p] {
      x := At(h, r, i);
      assert Arrived(h, r, i);
    } else {
      RootMain(h, r);
      x := SomebodyHasIt(h, net, qs, r, Parent(i));
    }
  }

  lemma RootMain(h: History, r: nat)
    requires Chain(h) && r < Now(h)
    ensures |h.rounds[r].c| > 0 && At(h, r, 0) == 0
  {
    assert RoundOk(h, r);
  }

  lemma QueueOwner(h: History, net: Net, qs: Queues, x: int)
    requires FloodInv(h, net, qs) && x in qs
    ensures x in net && x != 0
  {
  }

  lemma OpenMoves(s: Sys, h: History, all: set<Reply>, r: nat)
    requires Linked(s.ctl, s.net, s.queues, h, all) && r in s.ctl.counts
             && OpenOk(h, all, s.replies, r, s.ctl.counts[r])
    ensures s.replies != {} || exists x :: x in s.net && x in s.queues && s.queues[x] != []
  {
    hide TimeInv, MailInv, RepliesSound, RepliesComplete, Chain, Clocks, TreeOk, Settled;
    LinkedFacts(s.ctl, s.net, s.queues, h, all);
    var a := h.rounds[r].a;
    var w := Whole(s.net, s.ctl.slots);
    TargetVisited(a);
    VisIsFlood(h, r, a);
    ActorKnown(h, w, s.queues, r, a);
    if h.clock[At(h, r, a)] <= r {
      var x := SomebodyHasIt(h, w, s.queues, r, a);
      QueueOwner(h, w, s.queues, x);
    } else {
      ActorAnswered(h, all, r);
      var m :| m in all && m.uuid == r && m.code != NotFound;
      assert m !in ReceivedOf(all, s.replies, r);
    }
  }

  lemma ActorKnown(h: History, net: Net, qs: Queues, r: nat, i: nat)
    requires FloodInv(h, net, qs) && r < Now(h) && i < |h.rounds[r].c| && At(h, r, i) in h.nets[r]
    ensures At(h, r, i) in h.clock
  {
  }

  // A step the system can take without the user.
  predicate Internal(a: Action) { a.Process? || a.Receive? }

  lemma FreeOrOpen(s: Sys, h: History, ids: seq<int>)
    requires |h.nets| == Now(h) + 1 && Mode(s, h, ids)
    ensures Free(s.ctl) || exists r :: r in s.ctl.counts
  {
    hide Mirrors, Ids, Layout, TailIds, Carried;
    if !Growing(s, h, ids) {
      var k: nat, step: nat :| Removing(s, h, ids, k, step);
      assert (Now(h) - 1) as nat in s.ctl.counts;
    }
  }

  lemma StillOpen(s: Sys, h: History, all: set<Reply>, r: nat)
    requires Opens(s, h, all) && r in s.ctl.counts
    ensures OpenOk(h, all, s.replies, r, s.ctl.counts[r])
  {
  }

  // As long as a command is not over, some process or the controller can move.
  lemma {:induction false} NeverStuck(self: int, acts: seq<Action>)
    requires self != -1 && Runnable(Start(self), acts)
    ensures var s := Run(Start(self), acts); Free(s.ctl) || exists a :: Internal(a) && Enabled(s, a)
  {
    hide Linked, Mode, Opens, OpenOk, Ledger;
    var h0 := StartKeeps(self);
    var h, all, b := RunKeeps(Start(self), h0, {}, [-1], BLANK, acts);
    var s := Run(Start(self), acts);
    LinkedFacts(s.ctl, s.net, s.queues, h, all);
    FreeOrOpen(s, h, Sequential([-1], acts));
    if !Free(s.ctl) {
      var r :| r in s.ctl.counts;
      StillOpen(s, h, all, r);
      OpenMoves(s, h, all, r);
      if m :| m in s.replies {
        assert Enabled(s, Receive(m));
      } else {
        var x :| x in s.net && x in s.queues && s.queues[x] != [];
        assert Enabled(s, Process(x, false));
      }
    }
  }

  // What the processes have not seen yet, up to the last request the pending script can lead to.
  ghost function Ahead(h: History, top: nat): set<(int, nat)> {
    set x, t | x in h.clock && h.clock[x] <= t < top :: (x, t)
  }

  ghost function Top(c: Ctl): nat { c.serial + TotalLeft(c.scripts) }

  ghost function Work(s: Sys, h: History): nat { 2 * |Ahead(h, Top(s.ctl))| + |s.replies| }

  lemma FewerAhead(a: set<(int, nat)>, b: set<(int, nat)>)
    requires a <= b
    ensures |a| <= |b| && (a != b ==> |a| < |b|)
  {
    assert b == a + (b - a);
    if a != b {
      assert b - a != {};
    }
  }

  lemma AheadShrinks(h: History, h': History, top: nat, top': nat)
    requires Later(h, h') && top' <= top
    ensures |Ahead(h', top')| <= |Ahead(h, top)|
    ensures (exists x :: x in h.clock && h.clock[x] < h'.clock[x] && h.clock[x] < top)
            ==> |Ahead(h', top')| < |Ahead(h, top)|
  {
    FewerAhead(Ahead(h', top'), Ahead(h, top));
    if x :| x in h.clock && h.clock[x] < h'.clock[x] && h.clock[x] < top {
      assert (x, h.clock[x]) in Ahead(h, top) && (x, h.clock[x]) !in Ahead(h', top');
    }
  }

  lemma ProcessSpends(s: Sys, h: History, all: set<Reply>, ids: seq<int>, b: Book, x: int, custom: bool)
    returns (h': History, all': set<Reply>)
    requires SysInv(s, h, all, ids, b) && Enabled(s, Process(x, custom))
    ensures SysInv(Apply(s, Process(x, custom)), h', all', ids, b)
    ensures Work(Apply(s, Process(x, custom)), h') < Work(s, h)
  {
    hide SysInv, Linked, Mode, Deliver;
    h', all' := ProcessKeeps(s, h, all, ids, b, x, custom);
    InvLinked(s, h, all, ids, b);
    InvLinked(Apply(s, Process(x, custom)), h', all', ids, b);
    LinkedFacts(s.ctl, s.net, s.queues, h, all);
    LinkedFacts(s.ctl, Apply(s, Process(x, custom)).net, Apply(s, Process(x, custom)).queues, h', all');
    assert h'.clock[x] <= Now(h') == s.ctl.serial;
    AheadShrinks(h, h', Top(s.ctl), Top(s.ctl));
    OneMoreAtMost(s.replies, Deliver(s.net, s.queues, x, custom));
  }

  lemma InvLinked(s: Sys, h: History, all: set<Reply>, ids: seq<int>, b: Book)
    requires SysInv(s, h, all, ids, b)
    ensures Linked(s.ctl, s.net, s.queues, h, all) && |h.nets| == Now(h) + 1 && s.ctl.out == []
  {
  }

  lemma OneMoreAtMost(replies: set<Reply>, d: Delivery)
    ensures |AllAfter(replies, d)| <= |replies| + 1
  {
  }

  lemma ReceiveWorks(s: Sys, h: History, all: set<Reply>, ids: seq<int>, b: Book, m: Reply)
    returns (h': History, b': Book)
    requires SysInv(s, h, all, ids, b) && m in s.replies
    ensures SysInv(Apply(s, Receive(m)), h', all, ids, b')
    ensures Work(Apply(s, Receive(m)), h') < Work(s, h)
  {
    hide SysInv, Linked, Mode, Later;
    h', b' := ReceiveKeeps(s, h, all, ids, b, m);
    ReceiveSpends(s.ctl, m);
    AheadShrinks(h, h', Top(s.ctl), Top(Apply(s, Receive(m)).ctl));
  }

  predicate AllInternal(acts: seq<Action>) { forall a :: a in acts ==> Internal(a) }

  lemma {:induction false} InternalBound(s: Sys, h: History, all: set<Reply>, ids: seq<int>, b: Book, more: seq<Action>)
    requires SysInv(s, h, all, ids, b) && Runnable(s, more) && AllInternal(more)
    ensures |more| <= Work(s, h)
    decreases |more|
  {
    hide SysInv, Apply, Enabled, Work;
    if more != [] {
      var a := more[0];
      assert Internal(a);
      var h', all', b' := h, all, b;
      match a {
        case Process(x, custom) => h', all' := ProcessSpends(s, h, all, ids, b, x, custom);
        case Receive(m) =>
          ReplyPending(s, m);
          h', b' := ReceiveWorks(s, h, all, ids, b, m);
        case _ =>
      }
      InternalBound(Apply(s, a), h', all', ids, b', more[1..]);
    }
  }

  ghost predicate EndsWithin(s: Sys, n: nat) {
    forall more: seq<Action> {:trigger Runnable(s, more)} :: Runnable(s, more) && AllInternal(more) ==> |more| <= n
  }

  // From any state a run can reach, every sequence of steps without new commands is bounded: with
  // NeverStuck, every command is over after finitely many steps, in whatever order they happen.
  lemma {:induction false} EveryCommandEnds(self: int, acts: seq<Action>)
    requires self != -1 && Runnable(Start(self), acts)
    ensures exists n: nat :: EndsWithin(Run(Start(self), acts), n)
  {
    hide SysInv, Work;
    var h0 := StartKeeps(self);
    var h, all, b := RunKeeps(Start(self), h0, {}, [-1], BLANK, acts);
    var s := Run(Start(self), acts);
    forall more: seq<Action> | Runnable(s, more) && AllInternal(more)
      ensures |more| <= Work(s, h)
    {
      InternalBound(s, h, all, Sequential([-1], acts), b, more);
    }
    assert EndsWithin(s, Work(s, h));
  }
}
