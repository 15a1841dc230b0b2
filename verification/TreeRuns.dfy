// Runs of the whole system: any interleaving of user commands, of processes taking requests out of
// their inboxes, and of replies reaching the controller, in any order.
module TreeRuns {
  import opened Overlay
  import opened HeapShape
  import opened Flood
  import opened Answers
  import opened Counting
  import opened Phases
  import opened Shapes
  import opened TreeArray
  import opened Controller
  import opened Scripts
  import opened TreeSystem
  import opened TreeLedger

  // `replies` are on their way to the controller; `execs` remembers which requests came from execs.
  datatype Sys = Sys(ctl: Ctl, net: Net, queues: Queues, replies: set<Reply>, execs: set<nat>)

  datatype Action = User(wish: Wish) | Process(x: int, custom: bool) | Receive(m: Reply)

  // No command is open.
  predicate Free(c: Ctl) { c.counts == map[] && c.scripts == [] }

  // No command but execs is open.
  predicate Calm(s: Sys) { s.ctl.counts.Keys <= s.execs && s.ctl.scripts == [] }

  // Any number of creates and execs may be open at once; they wait only for a removal to end, and a
  // removal waits for everything.  All else happens whenever it can.
  predicate Enabled(s: Sys, a: Action) {
    match a
    case User(CreateNode(_, pid)) => s.ctl.scripts == [] && pid != -1 && pid != s.ctl.self
    case User(RemoveNode(_)) => Free(s.ctl)
    case User(ExecNode(_)) => s.ctl.scripts == []
    case Process(x, _) => x in s.net && x in s.queues && s.queues[x] != []
    case Receive(m) => m in s.replies
  }

  // What the controller pushed leaves for the inboxes.
  function Emit(s: Sys, c: Ctl): Sys {
    s.(ctl := c.(out := []), queues := PushOut(s.queues, c.out))
  }

  // fork and exec: a process bound to the new node's port, without children.
  function Spawn(s: Sys, c: Ctl): Sys {
    if |c.tree| > |s.ctl.tree| then
      var n := c.tree[|c.tree| - 1];
      s.(net := s.net[n.main := Proc(PeerOf(n), NO_CHILDREN)], queues := s.queues[n.main := []])
    else s
  }

  function Commanding(s: Sys, w: Wish): Sys {
    match w
    case CreateNode(id, pid) =>
      var c := CmdCreate(s.ctl, id, pid);
      Emit(Spawn(s, c), c)
    case RemoveNode(id) => Emit(s, CmdRemove(s.ctl, id))
    case ExecNode(id) =>
      var c := CmdExec(s.ctl, id);
      Emit(s, c).(execs := if c.serial > s.ctl.serial then s.execs + {s.ctl.serial} else s.execs)
  }

  function Apply(s: Sys, a: Action): Sys
    requires Enabled(s, a)
  {
    match a
    case User(w) => Commanding(s, w)
    case Process(x, custom) =>
      var d := Deliver(s.net, s.queues, x, custom);
      s.(net := d.net, queues := d.queues, replies := AllAfter(s.replies, d))
    case Receive(m) => Emit(s, ReceiveProcess(s.ctl, m)).(replies := s.replies - {m})
  }

  // ---- What holds between steps ----

  ghost function ReceivedOf(all: set<Reply>, pending: set<Reply>, r: nat): set<Reply> {
    set m | m in all - pending && m.uuid == r
  }

  // Request r has a target, only "not found" has come back so far, and the counter still allows as
  // many answers as the layout it runs on has leaves.
  ghost predicate OpenOk(h: History, all: set<Reply>, pending: set<Reply>, r: nat, count: int) {
    && r < Now(h) && 0 < h.rounds[r].a < |h.rounds[r].c|
    && count + |ReceivedOf(all, pending, r)| >= (|h.rounds[r].c| + 1) / 2
    && (forall m :: m in ReceivedOf(all, pending, r) ==> m.code == NotFound)
  }

  ghost predicate Opens(s: Sys, h: History, all: set<Reply>) {
    && (forall r {:trigger OpenOk(h, all, s.replies, r, s.ctl.counts[r])} ::
          r in s.ctl.counts ==> OpenOk(h, all, s.replies, r, s.ctl.counts[r]))
    && (forall r :: r in s.execs ==> r < Now(h) && h.rounds[r].req.cmd == Exec)
  }

  function TailIds(t: seq<TreeNode>, n: nat): set<int>
    requires n <= |t|
  {
    set i | 0 < i < n :: t[i].id
  }

  // The open requests that are not execs.
  function Rest(s: Sys): set<nat> { s.ctl.counts.Keys - s.execs }

  // Request r creates an entry of the array, and no other open request creates the same.
  ghost predicate CreatesOne(s: Sys, h: History, r: nat) {
    && r < Now(h) && h.rounds[r].req.cmd == Create && h.rounds[r].req.id in TailIds(s.ctl.tree, |s.ctl.tree|)
    && forall u :: u in Rest(s) && u != r ==> u < Now(h) && h.rounds[u].req.id != h.rounds[r].req.id
  }

  ghost function BeingCreated(s: Sys, h: History): set<int> {
    set r | r in Rest(s) && r < Now(h) :: h.rounds[r].req.id
  }

  // Only creates and execs are open, and the network is, or is about to be, what the array says; a
  // node is pinged once its create has been answered.
  ghost predicate Growing(s: Sys, h: History, ids: seq<int>)
    requires |h.nets| == Now(h) + 1
  {
    && s.ctl.scripts == [] && Carried(h, Rest(s)) && (forall r :: r in Rest(s) ==> CreatesOne(s, h, r))
    && Mirrors(h.nets[Now(h)], Layout(s.ctl.tree)) && Ids(s.ctl.tree) == ids
    && s.ctl.pings.Keys == TailIds(s.ctl.tree, |s.ctl.tree|) - BeingCreated(s, h)
  }

  // Nothing but execs is open, and the network mirrors the array.
  ghost predicate Steady(s: Sys, h: History, ids: seq<int>)
    requires |h.nets| == Now(h) + 1
  {
    && Calm(s) && Quiet(h) && Mirrors(h.nets[Now(h)], Layout(s.ctl.tree))
    && Ids(s.ctl.tree) == ids && s.ctl.pings.Keys == TailIds(s.ctl.tree, |s.ctl.tree|)
  }

  ghost predicate Removing(s: Sys, h: History, ids: seq<int>, k: nat, step: nat)
    requires |h.nets| == Now(h) + 1
  {
    && StepSent(s.ctl, h, k, step) && s.ctl.counts.Keys == {(Now(h) - 1) as nat} && (Now(h) - 1) as nat !in s.execs
    && Without(Ids(s.ctl.tree), k) == ids && s.ctl.pings.Keys == TailIds(s.ctl.tree, |s.ctl.tree|)
  }

  ghost predicate Mode(s: Sys, h: History, ids: seq<int>)
    requires |h.nets| == Now(h) + 1
  {
    Growing(s, h, ids) || exists k: nat, step: nat :: Removing(s, h, ids, k, step)
  }

  ghost predicate SysInv(s: Sys, h: History, all: set<Reply>, ids: seq<int>, b: Book) {
    && Linked(s.ctl, s.net, s.queues, h, all) && s.ctl.out == [] && s.replies <= all
    && Opens(s, h, all) && Mode(s, h, ids) && Ledger(b, s.ctl, h)
  }

  // What a step may add to the ledger.
  ghost predicate Grown(b: Book, b': Book) {
    b'.orders == b.orders && b.told <= b'.told && |b'.told| <= |b.told| + 1
  }

  // ---- A process takes a request ----

  lemma DeliverWhole(net: Net, slots: Slots, qs: Queues, x: int, custom: bool)
    requires x in net && x in qs && qs[x] != [] && x != 0
    ensures var d, w := Deliver(net, qs, x, custom), Deliver(Whole(net, slots), qs, x, custom);
            w.net == Whole(d.net, slots) && w.queues == d.queues && w.reply == d.reply
  {
  }

  lemma ProcessLinked(c: Ctl, net: Net, qs: Queues, h: History, all: set<Reply>, x: int, custom: bool)
    requires Linked(c, net, qs, h, all) && x in net && x in qs && qs[x] != []
    ensures var d, h' := Deliver(net, qs, x, custom), Seen(h, x, qs[x][0].uuid);
            && x in h.clock && h.clock[x] <= qs[x][0].uuid
            && Linked(c, d.net, d.queues, h', AllAfter(all, d))
            && (d.reply.Some? ==> d.reply.value !in all)
  {
    var w := Whole(net, c.slots);
    DeliverWhole(net, c.slots, qs, x, custom);
    var i := DeliverKeepsInv(h, w, qs, x, custom);
    DeliverSoundReplies(h, w, qs, x, custom, i, all);
    DeliverCompleteReplies(h, w, qs, x, custom, i, all);
  }

  lemma SameReceived(all: set<Reply>, pending: set<Reply>, d: Delivery)
    requires pending <= all && (d.reply.Some? ==> d.reply.value !in all)
    ensures AllAfter(all, d) - AllAfter(pending, d) == all - pending && AllAfter(pending, d) <= AllAfter(all, d)
  {
  }

  lemma ProcessKeeps(s: Sys, h: History, all: set<Reply>, ids: seq<int>, b: Book, x: int, custom: bool)
    returns (h': History, all': set<Reply>)
    requires SysInv(s, h, all, ids, b) && Enabled(s, Process(x, custom))
    ensures SysInv(Apply(s, Process(x, custom)), h', all', ids, b)
    ensures x in h.clock && Later(h, h') && h.clock[x] < h'.clock[x]
    ensures var d := Deliver(s.net, s.queues, x, custom);
            all' == AllAfter(all, d) && (d.reply.Some? ==> d.reply.value !in all)
  {
    hide Linked, Mode, Opens, Ledger;
    var r, d := s.queues[x][0].uuid, Deliver(s.net, s.queues, x, custom);
    var s' := Apply(s, Process(x, custom));
    LinkedFacts(s.ctl, s.net, s.queues, h, all);
    ProcessLinked(s.ctl, s.net, s.queues, h, all, x, custom);
    h', all' := Seen(h, x, r), AllAfter(all, d);
    SameReceived(all, s.replies, d);
    SeenOpens(s, s', h, all, all', x, r);
    SeenMode(s, s', h, ids, x, r);
    LedgerStays(b, s.ctl, h, s'.ctl, h');
  }

  lemma SeenOpens(s: Sys, s': Sys, h: History, all: set<Reply>, all': set<Reply>, x: int, r: nat)
    requires Opens(s, h, all) && s'.ctl == s.ctl && s'.execs == s.execs && all' - s'.replies == all - s.replies
    ensures Opens(s', Seen(h, x, r), all')
  {
    forall u: nat
      ensures ReceivedOf(all', s'.replies, u) == ReceivedOf(all, s.replies, u)
    {
    }
    forall u | u in s.ctl.counts
      ensures OpenOk(Seen(h, x, r), all', s'.replies, u, s'.ctl.counts[u])
    {
      assert OpenOk(h, all, s.replies, u, s.ctl.counts[u]);
    }
  }

  lemma SeenMode(s: Sys, s': Sys, h: History, ids: seq<int>, x: int, r: nat)
    requires |h.nets| == Now(h) + 1 && Mode(s, h, ids) && x in h.clock && h.clock[x] <= r
    requires s'.ctl == s.ctl && s'.execs == s.execs
    ensures Mode(s', Seen(h, x, r), ids)
  {
    hide Mirrors, TailIds, Layout, Ids, Shape, StepRound, Carried, Without;
    var h' := Seen(h, x, r);
    if Growing(s, h, ids) {
      SeenCarried(h, x, r, Rest(s));
      SameGrowing(s, s', h, h', ids);
    } else {
      var k: nat, step: nat :| Removing(s, h, ids, k, step);
      SeenCarried(h, x, r, {(Now(h) - 1) as nat});
      assert Removing(s', h', ids, k, step);
    }
  }

  // Nothing but the processes' own times, or what does not concern the creates, has changed.
  lemma SameGrowing(s: Sys, s': Sys, h: History, h': History, ids: seq<int>)
    requires |h.nets| == Now(h) + 1 && |h'.nets| == Now(h') + 1 && Growing(s, h, ids)
    requires h.rounds <= h'.rounds && h'.nets[Now(h')] == h.nets[Now(h)] && Carried(h', Rest(s)) && Rest(s') == Rest(s)
    requires s'.ctl.tree == s.ctl.tree && s'.ctl.scripts == s.ctl.scripts && s'.ctl.pings == s.ctl.pings
    ensures Growing(s', h', ids)
  {
    hide Mirrors, TailIds, Layout, Ids, Carried;
    forall r | r in Rest(s')
      ensures CreatesOne(s', h', r)
    {
      assert CreatesOne(s, h, r);
      assert forall u :: u in Rest(s) ==> CreatesOne(s, h, u);
    }
    SameCreated(s, s', h, h');
  }

  lemma SameCreated(s: Sys, s': Sys, h: History, h': History)
    requires h.rounds <= h'.rounds && Rest(s') == Rest(s) && forall r :: r in Rest(s) ==> r < Now(h)
    ensures BeingCreated(s', h') == BeingCreated(s, h)
  {
  }

  // ---- A reply reaches the controller ----

  lemma OneMoreReceived(all: set<Reply>, pending: set<Reply>, m: Reply, r: nat)
    requires pending <= all && m in pending
    ensures ReceivedOf(all, pending - {m}, r) == if m.uuid == r then ReceivedOf(all, pending, r) + {m}
            else ReceivedOf(all, pending, r)
    ensures m.uuid == r ==> |ReceivedOf(all, pending - {m}, r)| == |ReceivedOf(all, pending, r)| + 1
  {
    if m.uuid == r {
      assert ReceivedOf(all, pending - {m}, r) == ReceivedOf(all, pending, r) + {m};
    }
  }

  lemma SubsetSize(a: set<Reply>, b: set<Reply>)
    requires a <= b
    ensures |a| <= |b|
  {
    assert b == a + (b - a);
  }

  // The counter never runs out on "not found" answers while the target is in the tree.
  lemma StillCounting(h: History, all: set<Reply>, pending: set<Reply>, m: Reply, count: int)
    requires Chain(h) && RepliesSound(h, all) && pending <= all && m in pending
    requires OpenOk(h, all, pending, m.uuid, count)
    ensures count > 0 && (m.code == NotFound ==> count > 1 && OpenOk(h, all, pending - {m}, m.uuid, count - 1))
  {
    hide Chain, RepliesSound;
    OneMoreReceived(all, pending, m, m.uuid);
    NotFoundBound(h, all, m.uuid);
    SubsetSize(ReceivedOf(all, pending, m.uuid), NotFounds(all, m.uuid));
    if m.code == NotFound {
      SubsetSize(ReceivedOf(all, pending - {m}, m.uuid), NotFounds(all, m.uuid));
    }
  }

  // Taking in a reply leaves the other open requests as they are.
  lemma OthersOpen(s: Sys, s': Sys, h: History, all: set<Reply>, m: Reply)
    requires Opens(s, h, all) && s.replies <= all && m in s.replies
    requires s'.replies == s.replies - {m} && s'.execs == s.execs
    requires forall r :: r in s'.ctl.counts && r != m.uuid ==> r in s.ctl.counts && s'.ctl.counts[r] == s.ctl.counts[r]
    requires m.uuid in s'.ctl.counts ==> OpenOk(h, all, s'.replies, m.uuid, s'.ctl.counts[m.uuid])
    ensures Opens(s', h, all)
  {
    forall r | r in s'.ctl.counts
      ensures OpenOk(h, all, s'.replies, r, s'.ctl.counts[r])
    {
      OneMoreReceived(all, s.replies, m, r);
      assert r != m.uuid ==> OpenOk(h, all, s.replies, r, s.ctl.counts[r]);
    }
  }

  lemma NotFoundOnlyCounts(c: Ctl, m: Reply)
    requires m.uuid in c.counts && c.counts[m.uuid] > 1 && m.code == NotFound
    ensures ReceiveProcess(c, m) == c.(counts := c.counts[m.uuid := c.counts[m.uuid] - 1])
  {
  }

  // An answer other than "not found" repeats what was asked, and comes from the node it was meant for.
  lemma FinalAnswer(h: History, all: set<Reply>, m: Reply)
    requires RepliesSound(h, all) && m in all && m.code != NotFound
    ensures m.uuid < Now(h) && m.cmd == h.rounds[m.uuid].req.cmd && m.id == h.rounds[m.uuid].req.id
    ensures m.code == Custom ==> m.cmd == Exec
  {
    var i: nat :| WrittenBy(h, m, i);
  }

  // That node has therefore done its part.
  lemma FinalSettles(h: History, all: set<Reply>, m: Reply, open: set<nat>)
    requires Chain(h) && RepliesSound(h, all) && Carried(h, open) && m in all && m.code != NotFound
    ensures Carried(h, open - {m.uuid})
  {
    var i: nat :| WrittenBy(h, m, i);
    forall u: nat, y | u < Now(h) && IsActor(h, u, y) && Changes(h, u) && u !in open - {m.uuid}
      ensures y in h.clock && u < h.clock[y]
    {
      if u == m.uuid {
        assert y == m.from;
      }
    }
  }

  lemma NoneReceivedYet(h: History, all: set<Reply>, pending: set<Reply>, r: nat)
    requires RepliesSound(h, all) && r >= Now(h)
    ensures ReceivedOf(all, pending, r) == {}
  {
    forall m | m in all
      ensures m.uuid < Now(h)
    {
      var i: nat :| WrittenBy(h, m, i);
    }
  }

  lemma EmptyOut(s: Sys)
    requires s.ctl.out == []
    ensures Emit(s, s.ctl) == s
  {
  }

  // ---- Nothing but the counters changes ----

  lemma SameMode(s: Sys, s': Sys, h: History, ids: seq<int>)
    requires |h.nets| == Now(h) + 1 && Mode(s, h, ids) && s'.execs == s.execs
    requires s'.ctl == s.ctl.(counts := s'.ctl.counts) && s'.ctl.counts.Keys == s.ctl.counts.Keys
    ensures Mode(s', h, ids)
  {
    hide Mirrors, Layout, Ids, TailIds, Carried;
    if Growing(s, h, ids) {
      SameGrowing(s, s', h, h, ids);
    } else {
      var k: nat, step: nat :| Removing(s, h, ids, k, step);
      SameStep(s.ctl, s'.ctl, h, k, step);
      assert Removing(s', h, ids, k, step);
    }
  }

  lemma SameStep(c: Ctl, c': Ctl, h: History, k: nat, step: nat)
    requires |h.nets| == Now(h) + 1 && StepSent(c, h, k, step) && c'.tree == c.tree && c'.scripts == c.scripts
    ensures StepSent(c', h, k, step)
  {
  }

  // The open requests, the scripts and what was printed do not concern the network.
  lemma SameLinked(c: Ctl, c': Ctl, net: Net, qs: Queues, h: History, all: set<Reply>)
    requires Linked(c, net, qs, h, all)
    requires c'.tree == c.tree && c'.slots == c.slots && c'.serial == c.serial && c'.self == c.self
             && c'.nextPort == c.nextPort
    ensures Linked(c', net, qs, h, all)
  {
  }

  lemma OnlyCounted(s: Sys, s': Sys, h: History, all: set<Reply>, ids: seq<int>, b: Book, m: Reply)
    requires SysInv(s, h, all, ids, b) && m in s.replies && s'.ctl == s.ctl.(counts := s'.ctl.counts)
    requires s' == s.(ctl := s'.ctl, replies := s.replies - {m}) && s'.ctl.counts.Keys == s.ctl.counts.Keys
    requires forall r :: r in s'.ctl.counts && r != m.uuid ==> s'.ctl.counts[r] == s.ctl.counts[r]
    requires m.uuid in s'.ctl.counts ==> OpenOk(h, all, s'.replies, m.uuid, s'.ctl.counts[m.uuid])
    ensures SysInv(s', h, all, ids, b)
  {
    hide Linked, Mode, Ledger, OpenOk, RepliesSound, Chain, Clocks, Settled, TreeOk, Opens;
    LinkedFacts(s.ctl, s.net, s.queues, h, all);
    OthersOpen(s, s', h, all, m);
    SameLinked(s.ctl, s'.ctl, s.net, s.queues, h, all);
    SameMode(s, s', h, ids);
    LedgerStays(b, s.ctl, h, s'.ctl, h);
  }

  lemma ReceiveStale(s: Sys, h: History, all: set<Reply>, ids: seq<int>, b: Book, m: Reply)
    requires SysInv(s, h, all, ids, b) && m in s.replies && m.uuid !in s.ctl.counts
    ensures SysInv(Apply(s, Receive(m)), h, all, ids, b)
  {
    hide SysInv;
    var s' := Apply(s, Receive(m));
    OutIsEmpty(s, h, all, ids, b);
    EmptyOut(s);
    assert s' == s.(replies := s.replies - {m});
    OnlyCounted(s, s', h, all, ids, b, m);
  }

  lemma OutIsEmpty(s: Sys, h: History, all: set<Reply>, ids: seq<int>, b: Book)
    requires SysInv(s, h, all, ids, b)
    ensures s.ctl.out == []
  {
  }

  lemma ReceiveNotFound(s: Sys, h: History, all: set<Reply>, ids: seq<int>, b: Book, m: Reply)
    requires SysInv(s, h, all, ids, b) && m in s.replies && m.uuid in s.ctl.counts && m.code == NotFound
    ensures SysInv(Apply(s, Receive(m)), h, all, ids, b)
  {
    hide Linked, Mode, Ledger, OpenOk, RepliesSound, Chain, Clocks, Settled, TreeOk, ReceiveProcess;
    LinkedFacts(s.ctl, s.net, s.queues, h, all);
    var s' := s.(ctl := ReceiveProcess(s.ctl, m), replies := s.replies - {m});
    assert OpenOk(h, all, s.replies, m.uuid, s.ctl.counts[m.uuid]);
    StillCounting(h, all, s.replies, m, s.ctl.counts[m.uuid]);
    NotFoundOnlyCounts(s.ctl, m);
    OnlyCounted(s, s', h, all, ids, b, m);
    EmptyOut(s');
    assert Apply(s, Receive(m)) == s';
  }

  // ---- The answer that ends a request ----

  lemma TailIdsGrow(t: seq<TreeNode>)
    requires |t| >= 2
    ensures TailIds(t, |t|) == TailIds(t, |t| - 1) + {t[|t| - 1].id}
  {
  }

  lemma {:induction false} TailIdsShrink(t: seq<TreeNode>, self: int, nextPort: int, k: nat)
    requires TreeOk(t, self, nextPort) && 0 < k < |t|
    ensures TailIds(Without(t, k), |t| - 1) == TailIds(t, |t|) - {t[k].id}
    ensures Ids(Without(t, k)) == Without(Ids(t), k)
  {
    var u := Without(t, k);
    assert forall i :: 0 <= i < |u| ==> u[i] == t[if i == k then |t| - 1 else i];
    forall i | 0 <= i < |t| && i != k
      ensures t[i].id != t[k].id
    {
      assert if i < k then Apart(t, i, k) else Apart(t, k, i);
    }
    forall id | id in TailIds(t, |t|) - {t[k].id}
      ensures id in TailIds(u, |u|)
    {
      var i :| 0 < i < |t| && t[i].id == id;
      assert u[if i == |t| - 1 then k else i].id == id;
    }
    assert Ids(u) == Without(Ids(t), k);
  }

  lemma CreatedProcess(c: Ctl, m: Reply)
    requires m.uuid in c.counts && m.cmd == Create && m.code == Ok
    ensures var counts := c.counts[m.uuid := c.counts[m.uuid] - 1] - {m.uuid};
            ReceiveProcess(c, m)
            == c.(counts := counts, pings := c.pings[m.id := 0], log := c.log + [CreateOk(Find(c.tree, m.id).pid)])
  {
  }

  lemma ExecutedProcess(c: Ctl, m: Reply)
    requires m.uuid in c.counts && m.cmd == Exec && m.code != NotFound
    ensures var counts := c.counts[m.uuid := c.counts[m.uuid] - 1] - {m.uuid};
            ReceiveProcess(c, m)
            == c.(counts := counts, log := c.log + [if m.code == Ok then ExecOk(m.id) else ExecError(m.id)])
  {
  }

  // The requests that stay open stay so.
  lemma Closed(s: Sys, s': Sys, h: History, all: set<Reply>, m: Reply)
    requires Opens(s, h, all) && s.replies <= all && m in s.replies && s'.execs == s.execs
    requires m.uuid in s.ctl.counts && s'.replies == s.replies - {m}
    requires s'.ctl.counts == s.ctl.counts[m.uuid := s.ctl.counts[m.uuid] - 1] - {m.uuid}
    ensures Opens(s', h, all) && s'.ctl.counts.Keys == s.ctl.counts.Keys - {m.uuid}
  {
    hide OpenOk;
    OthersOpen(s, s', h, all, m);
  }

  lemma ReceiveCreated(s: Sys, h: History, all: set<Reply>, ids: seq<int>, b: Book, m: Reply) returns (b': Book)
    requires SysInv(s, h, all, ids, b) && m in s.replies && m.uuid in s.ctl.counts && m.code != NotFound
    requires |h.nets| == Now(h) + 1 && Growing(s, h, ids) && m.uuid !in s.execs
    ensures SysInv(Apply(s, Receive(m)), h, all, ids, b') && Grown(b, b')
  {
    hide Linked, RepliesSound, Chain, Clocks, Settled, TreeOk, Mirrors, ReceiveProcess, Opens, Find, TailIds, Layout,
         Ids, Ledger, Growing, Mode;
    LinkedFacts(s.ctl, s.net, s.queues, h, all);
    FinalAnswer(h, all, m);
    OpenCreate(s, h, ids, m.uuid);
    CreatedProcess(s.ctl, m);
    var s' := s.(ctl := ReceiveProcess(s.ctl, m), replies := s.replies - {m});
    Closed(s, s', h, all, m);
    SameLinked(s.ctl, s'.ctl, s.net, s.queues, h, all);
    EmptyOut(s');
    assert Apply(s, Receive(m)) == s';
    CreatedMode(s, s', h, all, ids, m);
    AskedFits(b, s.ctl, h, m.uuid);
    b' := Told(b, m.uuid);
    LedgerTells(b, s.ctl, h, m.uuid, CreateOk(Find(s.ctl.tree, m.id).pid), s'.ctl, h);
  }

  lemma OpenCreate(s: Sys, h: History, ids: seq<int>, r: nat)
    requires |h.nets| == Now(h) + 1 && Growing(s, h, ids) && r in s.ctl.counts && r !in s.execs
    ensures CreatesOne(s, h, r)
  {
    hide Mirrors, TailIds, Layout, Ids;
  }

  lemma CreatedMode(s: Sys, s': Sys, h: History, all: set<Reply>, ids: seq<int>, m: Reply)
    requires |h.nets| == Now(h) + 1 && Growing(s, h, ids) && m.uuid in s.ctl.counts && m.uuid !in s.execs
    requires Chain(h) && RepliesSound(h, all) && m in all && m.code != NotFound
    requires m.uuid < Now(h) && m.id == h.rounds[m.uuid].req.id && s'.execs == s.execs
             && s'.ctl.counts.Keys == s.ctl.counts.Keys - {m.uuid}
    requires s'.ctl == s.ctl.(counts := s'.ctl.counts, pings := s.ctl.pings[m.id := 0], log := s'.ctl.log)
    ensures Mode(s', h, ids)
  {
    hide RepliesSound, Chain, Mirrors, TailIds, Layout, Ids, Carried;
    FinalSettles(h, all, m, Rest(s));
    assert Rest(s') == Rest(s) - {m.uuid};
    forall r | r in Rest(s')
      ensures CreatesOne(s', h, r)
    {
      assert CreatesOne(s, h, r);
    }
    OneCreated(s, s', h, m.uuid);
    assert Growing(s', h, ids);
  }

  lemma OneCreated(s: Sys, s': Sys, h: History, r: nat)
    requires r in Rest(s) && Rest(s') == Rest(s) - {r} && s'.ctl.tree == s.ctl.tree
    requires forall u :: u in Rest(s) ==> CreatesOne(s, h, u)
    ensures CreatesOne(s, h, r)
    ensures TailIds(s.ctl.tree, |s.ctl.tree|) - BeingCreated(s, h) + {h.rounds[r].req.id}
            == TailIds(s'.ctl.tree, |s'.ctl.tree|) - BeingCreated(s', h)
  {
    hide TailIds;
    assert CreatesOne(s, h, r);
    var id := h.rounds[r].req.id;
    assert BeingCreated(s, h) == BeingCreated(s', h) + {id};
    assert id !in BeingCreated(s', h);
  }

  lemma ReceiveExecuted(s: Sys, h: History, all: set<Reply>, ids: seq<int>, b: Book, m: Reply) returns (b': Book)
    requires SysInv(s, h, all, ids, b) && m in s.replies && m.uuid in s.ctl.counts && m.code != NotFound
    requires |h.nets| == Now(h) + 1 && m.uuid in s.execs
    ensures SysInv(Apply(s, Receive(m)), h, all, ids, b') && Grown(b, b')
  {
    hide Linked, RepliesSound, Chain, Clocks, Settled, TreeOk, ReceiveProcess, Mode, OpenOk, Ledger;
    LinkedFacts(s.ctl, s.net, s.queues, h, all);
    FinalAnswer(h, all, m);
    ExecutedProcess(s.ctl, m);
    AskedFits(b, s.ctl, h, m.uuid);
    var s' := s.(ctl := ReceiveProcess(s.ctl, m), replies := s.replies - {m});
    Closed(s, s', h, all, m);
    SameLinked(s.ctl, s'.ctl, s.net, s.queues, h, all);
    EmptyOut(s');
    assert Apply(s, Receive(m)) == s';
    ExecutedMode(s, s', h, ids, m.uuid);
    b' := Told(b, m.uuid);
    LedgerTells(b, s.ctl, h, m.uuid, if m.code == Ok then ExecOk(m.id) else ExecError(m.id), s'.ctl, h);
  }

  lemma ExecutedMode(s: Sys, s': Sys, h: History, ids: seq<int>, r: nat)
    requires |h.nets| == Now(h) + 1 && Mode(s, h, ids) && r in s.execs && r in s.ctl.counts && s'.execs == s.execs
    requires s'.ctl == s.ctl.(counts := s'.ctl.counts, log := s'.ctl.log)
             && s'.ctl.counts.Keys == s.ctl.counts.Keys - {r}
    ensures Mode(s', h, ids)
  {
    hide Mirrors, Layout, Ids, TailIds, Carried, StepSent, Growing;
    assert forall k: nat, step: nat :: !Removing(s, h, ids, k, step);
    assert Rest(s') == Rest(s);
    GrowingParts(s, h, ids);
    SameGrowing(s, s', h, h, ids);
  }

  lemma GrowingParts(s: Sys, h: History, ids: seq<int>)
    requires |h.nets| == Now(h) + 1 && Growing(s, h, ids)
    ensures s.ctl.scripts == [] && Carried(h, Rest(s)) && Mirrors(h.nets[Now(h)], Layout(s.ctl.tree))
    ensures Ids(s.ctl.tree) == ids && OnlyCreates(h, Rest(s)) && Settled(h, Now(h))
  {
    hide Mirrors, Layout, Ids, TailIds, Carried;
    forall r | r in Rest(s)
      ensures r < Now(h) && h.rounds[r].req.cmd.Create?
    {
      assert CreatesOne(s, h, r);
    }
    CarriedSettles(h, Rest(s));
  }

  lemma StepProcess(c: Ctl, m: Reply)
    requires m.uuid in c.counts && m.code == Ok && (m.cmd.Remove? || m.cmd.Ping? || m.cmd.Connect? || m.cmd.Disconnect?)
    ensures var c1 := c.(counts := c.counts[m.uuid := c.counts[m.uuid] - 1]);
            var c2 := RecRemove(c1, m.cmd, m.id, Ok, c1.counts[m.uuid]);
            ReceiveProcess(c, m) == c2.(counts := c2.counts - {m.uuid})
  {
  }

  lemma StepRoundFits(c: seq<Peer>, k: nat, s: nat)
    requires 0 < k < |c| && s < StepCount(c, k)
    ensures var rd := StepRound(c, k, s);
            rd.a < |rd.c| <= |c| && (rd.req.cmd.Remove? || rd.req.cmd.Ping? || rd.req.cmd.Connect?
              || rd.req.cmd.Disconnect?)
  {
  }

  // After the controller has gone as far as it can, the network mirrors the shorter array or the next
  // request is on its way.
  lemma DoneMode(c0: Ctl, c: Ctl, s': Sys, h: History, ids: seq<int>, k: nat)
    requires |h.nets| == Now(h) + 1 && StepsDone(c0, c, h, k)
    requires TreeOk(c0.tree, c0.self, c0.nextPort) && 0 < k < |c0.tree| && Without(Ids(c0.tree), k) == ids
    requires c0.pings.Keys == TailIds(c0.tree, |c0.tree|)
    requires s'.ctl.tree == c.tree && s'.ctl.pings == c.pings && s'.ctl.scripts == c.scripts && s'.ctl.counts == map[]
    ensures Mode(s', h, ids)
  {
    hide TreeOk, Mirrors, Carried;
    TailIdsShrink(c0.tree, c0.self, c0.nextPort, k);
    WithoutIds(c0.tree, k);
    assert Rest(s') == {} && BeingCreated(s', h) == {};
    assert Growing(s', h, ids);
  }

  lemma {:induction false} WithoutIds(t: seq<TreeNode>, k: nat)
    requires 0 < k < |t|
    ensures Ids(Without(t, k)) == Without(Ids(t), k)
  {
  }

  lemma SentMode(c0: Ctl, c: Ctl, s': Sys, h: History, ids: seq<int>, k: nat)
    requires |h.nets| == Now(h) + 1 && StepsContinue(c0, c, h, k)
    requires 0 < k < |c0.tree| && Without(Ids(c0.tree), k) == ids && c0.pings.Keys == TailIds(c0.tree, |c0.tree|)
    requires s'.ctl.tree == c.tree && s'.ctl.pings == c.pings && s'.ctl.scripts == c.scripts
    requires s'.ctl.counts == map[(Now(h) - 1) as nat := (|c.tree| + 1) / 2] && (Now(h) - 1) as nat !in s'.execs
    ensures Mode(s', h, ids)
    ensures var rd := h.rounds[Now(h) - 1];
            && 0 < rd.a < |rd.c| <= |c.tree| && !rd.req.cmd.Create? && !rd.req.cmd.Exec?
  {
    hide Mirrors, Shape, StepRound, ScriptFor, Without, TailIds, Ids, Layout;
    var step: nat :| StepSent(c, h, k, step);
    SameStep(c, s'.ctl, h, k, step);
    StepRoundFits(Layout(c.tree), k, step);
    assert Removing(s', h, ids, k, step);
  }

  // A request that has just been sent.
  lemma JustSent(s: Sys, s': Sys, h: History, h': History, all: set<Reply>, r: nat)
    requires Opens(s, h, all) && RepliesSound(h, all) && h.rounds <= h'.rounds && Now(h) <= r < Now(h')
    requires 0 < h'.rounds[r].a < |h'.rounds[r].c| && s'.replies <= s.replies
    requires forall u :: u in s'.ctl.counts ==>
               if u == r then s'.ctl.counts[u] >= (|h'.rounds[r].c| + 1) / 2
               else u in s.ctl.counts && s'.ctl.counts[u] == s.ctl.counts[u] && s'.replies == s.replies
    requires s'.execs == s.execs || (s'.execs == s.execs + {r} && h'.rounds[r].req.cmd == Exec)
    ensures Opens(s', h', all)
  {
    hide RepliesSound;
    NoneReceivedYet(h, all, s'.replies, r);
    forall u | u in s'.ctl.counts
      ensures OpenOk(h', all, s'.replies, u, s'.ctl.counts[u])
    {
      if u != r {
        assert OpenOk(h, all, s.replies, u, s.ctl.counts[u]);
      }
    }
  }

  // The part of Outcome that does not concern the network.
  lemma {:induction false} OutcomeLog(c0: Ctl, c: Ctl, net: Net, qs: Queues, h: History, all: set<Reply>, k: nat)
    requires Outcome(c0, c, net, qs, h, all, k)
    ensures |h.nets| == Now(h) + 1 && (StepsDone(c0, c, h, k) || StepsContinue(c0, c, h, k))
    ensures Linked(c, net, PushOut(qs, c.out), h, all)
    ensures StepsDone(c0, c, h, k) ==> c.log == c0.log + [RemoveOk] && c.counts == c0.counts
    ensures StepsContinue(c0, c, h, k) ==>
              c.log == c0.log && c0.serial < Now(h) && c.counts == c0.counts[(Now(h) - 1) as nat := (|c.tree| + 1) / 2]
  {
    hide Linked, Mirrors, Carried, StepSent, Without, Layout;
    LinkedTree(c, net, PushOut(qs, c.out), h, all);
  }

  lemma ReceiveStep(s: Sys, h: History, all: set<Reply>, ids: seq<int>, b: Book, m: Reply, k: nat, step: nat)
    returns (h': History, b': Book)
    requires SysInv(s, h, all, ids, b) && m in s.replies && m.uuid in s.ctl.counts && m.code != NotFound
    requires |h.nets| == Now(h) + 1 && Removing(s, h, ids, k, step)
    ensures SysInv(Apply(s, Receive(m)), h', all, ids, b') && Later(h, h') && Grown(b, b')
  {
    hide Linked, RepliesSound, Chain, Clocks, Settled, TreeOk, Shape, StepRound, ReceiveProcess, ScriptFor, RecRemove,
         Outcome, Layout, Ids, StepsDone, StepsContinue, Mode, TailIds, Opens, Ledger;
    LinkedFacts(s.ctl, s.net, s.queues, h, all);
    FinalAnswer(h, all, m);
    FinalSettles(h, all, m, {m.uuid});
    assert {m.uuid} - {m.uuid} == {};
    StepRoundFits(Layout(s.ctl.tree), k, step);
    StepProcess(s.ctl, m);
    var c1 := s.ctl.(counts := s.ctl.counts[m.uuid := s.ctl.counts[m.uuid] - 1]);
    var c2 := RecRemove(c1, m.cmd, m.id, Ok, c1.counts[m.uuid]);
    SameLinked(s.ctl, c1, s.net, s.queues, h, all);
    h' := AdvanceRuns(c1, s.net, s.queues, h, all, k, step, c1.counts[m.uuid]);
    OutcomeLog(c1, c2, s.net, s.queues, h', all, k);
    var s' := Apply(s, Receive(m));
    SameLinked(c2, s'.ctl, s.net, s'.queues, h', all);
    b' := StepLedger(s, c1, c2, s', h, h', all, ids, b, k, m);
  }

  lemma StepLedger(s: Sys, c1: Ctl, c2: Ctl, s': Sys, h: History, h': History, all: set<Reply>, ids: seq<int>, b: Book,
      k: nat, m: Reply)
    returns (b': Book)
    requires |h'.nets| == Now(h') + 1 && h.rounds <= h'.rounds
             && (StepsDone(c1, c2, h', k) || StepsContinue(c1, c2, h', k))
    requires StepsDone(c1, c2, h', k) ==> c2.log == c1.log + [RemoveOk] && c2.counts == c1.counts
    requires StepsContinue(c1, c2, h', k) ==>
               c2.log == c1.log && c1.serial < Now(h')
                 && c2.counts == c1.counts[(Now(h') - 1) as nat := (|c2.tree| + 1) / 2]
    requires TreeOk(c1.tree, c1.self, c1.nextPort) && 0 < k < |c1.tree| && Without(Ids(c1.tree), k) == ids
    requires c1.pings.Keys == TailIds(c1.tree, |c1.tree|) && c1 == s.ctl.(counts := c1.counts)
    requires Opens(s, h, all) && RepliesSound(h, all) && c1.serial == Now(h) && Ledger(b, s.ctl, h)
    requires c1.counts.Keys == s.ctl.counts.Keys == {m.uuid} && m.uuid < Now(h) && s'.execs == s.execs
             && s'.replies == s.replies - {m}
    requires !h.rounds[m.uuid].req.cmd.Create? && !h.rounds[m.uuid].req.cmd.Exec?
    requires s'.ctl == c2.(counts := c2.counts - {m.uuid}, out := [])
    ensures Mode(s', h', ids) && Opens(s', h', all) && Ledger(b', s'.ctl, h') && Grown(b, b')
  {
    hide RepliesSound, TreeOk, StepsDone, StepsContinue, Mode, Layout, Ids, TailIds, Ledger, Without, Opens;
    OldExecs(s, h, all, h');
    AskedFits(b, s.ctl, h, m.uuid);
    if StepsDone(c1, c2, h', k) {
      DoneMode(c1, c2, s', h', ids, k);
      NoneOpen(s, s', h, h', all);
      b' := Told(b, m.uuid);
      LedgerTells(b, s.ctl, h, m.uuid, RemoveOk, s'.ctl, h');
    } else {
      assert s'.ctl.counts == map[(Now(h') - 1) as nat := (|c2.tree| + 1) / 2];
      SentMode(c1, c2, s', h', ids, k);
      JustSent(s, s', h, h', all, Now(h') - 1);
      b' := Moved(b, m.uuid, Now(h') - 1);
      StillAsked(b, s.ctl, h, m.uuid, s'.ctl.tree, h'.rounds[Now(h') - 1]);
      LedgerMoves(b, s.ctl, h, m.uuid, Now(h') - 1, s'.ctl, h');
    }
  }

  lemma OldExecs(s: Sys, h: History, all: set<Reply>, h': History)
    requires Opens(s, h, all) && h.rounds <= h'.rounds
    ensures forall r :: r in s.execs ==> r < Now(h) && h'.rounds[r].req.cmd == Exec
  {
  }

  lemma NoneOpen(s: Sys, s': Sys, h: History, h': History, all: set<Reply>)
    requires Opens(s, h, all) && h.rounds <= h'.rounds && s'.execs == s.execs && s'.ctl.counts == map[]
    ensures Opens(s', h', all)
  {
  }

  lemma ReceiveKeeps(s: Sys, h: History, all: set<Reply>, ids: seq<int>, b: Book, m: Reply)
    returns (h': History, b': Book)
    requires SysInv(s, h, all, ids, b) && m in s.replies
    ensures SysInv(Apply(s, Receive(m)), h', all, ids, b') && Later(h, h') && Grown(b, b')
  {
    hide Linked, Growing, Removing, Opens, Ledger;
    LinkedFacts(s.ctl, s.net, s.queues, h, all);
    h', b' := h, b;
    if m.uuid !in s.ctl.counts {
      ReceiveStale(s, h, all, ids, b, m);
    } else if m.code == NotFound {
      ReceiveNotFound(s, h, all, ids, b, m);
    } else if m.uuid in s.execs {
      b' := ReceiveExecuted(s, h, all, ids, b, m);
    } else if Growing(s, h, ids) {
      b' := ReceiveCreated(s, h, all, ids, b, m);
    } else {
      var k: nat, step: nat :| Removing(s, h, ids, k, step);
      h', b' := ReceiveStep(s, h, all, ids, b, m, k, step);
    }
  }

  // ---- The user's commands ----

  lemma CalmIsSteady(s: Sys, h: History, ids: seq<int>)
    requires |h.nets| == Now(h) + 1 && Mode(s, h, ids) && Calm(s)
    ensures Steady(s, h, ids)
  {
    hide Mirrors, Layout, Ids, TailIds, Carried;
    assert !exists k: nat, step: nat :: Removing(s, h, ids, k, step);
    assert Rest(s) == {} && BeingCreated(s, h) == {};
  }

  lemma NoRemoval(s: Sys, h: History, ids: seq<int>)
    requires |h.nets| == Now(h) + 1 && Mode(s, h, ids) && s.ctl.scripts == []
    ensures Growing(s, h, ids)
  {
    hide Mirrors, Layout, Ids, TailIds, Carried;
    assert !exists k: nat, step: nat :: Removing(s, h, ids, k, step);
  }

  // What a lookup by id tells the controller.
  lemma {:induction false} Lookup(t: seq<TreeNode>, self: int, nextPort: int, id: int)
    requires TreeOk(t, self, nextPort)
    ensures var i := IndexOf(t, id);
            && i == Where(Ids(t), id)
            && (i == |t| <==> Find(t, id).pid == -1)
            && (i == 0 <==> Find(t, id).pid == self)
            && (i < |t| ==> t[i].id == id)
  {
    WhereIs(t, id);
    var i := IndexOf(t, id);
    assert Find(t, id) == NodeAt(t, i) && t[0].pid == self && NO_NODE.pid == -1;
    assert 0 < i < |t| ==> t[i].pid != -1 && t[i].pid != self;
  }

  // A command that is answered on the spot.
  lemma ReportedKeeps(s: Sys, h: History, all: set<Reply>, ids: seq<int>, b: Book, rep: Report, o: Order)
    requires SysInv(s, h, all, ids, b) && s.ctl.scripts == [] && Fits(rep, o)
    ensures SysInv(Emit(s, Say(s.ctl, rep)), h, all, ids, AtOnce(b, o))
  {
    hide Linked, Mirrors, Layout, Ids, TailIds, Carried, Growing, Removing, OpenOk, Ledger, Fits;
    LinkedFacts(s.ctl, s.net, s.queues, h, all);
    NoRemoval(s, h, ids);
    GrowingParts(s, h, ids);
    var s' := Emit(s, Say(s.ctl, rep));
    SameLinked(s.ctl, s'.ctl, s.net, s.queues, h, all);
    assert s'.queues == s.queues;
    SameOpens(s, s', h, all);
    SameGrowing(s, s', h, h, ids);
    LedgerAnswers(b, s.ctl, h, o, rep, s'.ctl, h);
  }

  lemma SameOpens(s: Sys, s': Sys, h: History, all: set<Reply>)
    requires Opens(s, h, all) && s'.ctl.counts == s.ctl.counts && s'.replies == s.replies && s'.execs == s.execs
    ensures Opens(s', h, all)
  {
    hide OpenOk;
    forall r | r in s'.ctl.counts
      ensures OpenOk(h, all, s'.replies, r, s'.ctl.counts[r])
    {
      assert OpenOk(h, all, s.replies, r, s.ctl.counts[r]);
    }
  }

  // One more command stands in the ledger, answered or open.
  ghost predicate Ordered(b: Book, b': Book, o: Order) {
    b'.orders == b.orders + [o] && b.told <= b'.told && |b'.told| <= |b.told| + 1
  }

  lemma ExecKeeps(s: Sys, h: History, all: set<Reply>, ids: seq<int>, b: Book, id: int)
    returns (h': History, b': Book)
    requires SysInv(s, h, all, ids, b) && Enabled(s, User(ExecNode(id)))
    ensures SysInv(Apply(s, User(ExecNode(id))), h', all, ids, b') && Ordered(b, b', Order(ExecNode(id), ids))
  {
    hide Linked, Mirrors, TailIds, Carried, Growing, Removing, TreeOk, Chain, Clocks, RepliesSound, Settled, Opens,
         Ledger, Send;
    LinkedFacts(s.ctl, s.net, s.queues, h, all);
    NoRemoval(s, h, ids);
    GrowingParts(s, h, ids);
    Lookup(s.ctl.tree, s.ctl.self, s.ctl.nextPort, id);
    var k, o := IndexOf(s.ctl.tree, id), Order(ExecNode(id), ids);
    h', b' := h, AtOnce(b, o);
    if k == |s.ctl.tree| {
      ReportedKeeps(s, h, all, ids, b, ErrNotFound, o);
    } else if k == 0 {
      ReportedKeeps(s, h, all, ids, b, ErrControl, o);
    } else {
      h' := ExecSent(s, h, all, ids, b, k);
      SendCounts(s.ctl, Request(Exec, id, 0, 0, 0));
      b' := Opened(b, o, s.ctl.serial);
    }
  }

  lemma SendCounts(c: Ctl, req: Request)
    ensures Send(c, req).serial == c.serial + 1
  {
  }

  lemma ExecSent(s: Sys, h: History, all: set<Reply>, ids: seq<int>, b: Book, k: nat) returns (h': History)
    requires SysInv(s, h, all, ids, b) && |h.nets| == Now(h) + 1 && Growing(s, h, ids) && 0 < k < |s.ctl.tree|
    requires Where(ids, s.ctl.tree[k].id) == k
    ensures var id := s.ctl.tree[k].id;
            SysInv(Emit(s, Send(s.ctl, Request(Exec, id, 0, 0, 0))).(execs := s.execs + {s.ctl.serial}), h', all, ids,
                   Opened(b, Order(ExecNode(id), ids), s.ctl.serial))
  {
    hide Linked, Mirrors, TailIds, Chain, Clocks, RepliesSound, Settled, FloodLeadsTo, Growing, Removing, Opens,
         Ledger, Layout, Ids;
    var c, n := s.ctl, h.nets[Now(h)];
    LinkedFacts(c, s.net, s.queues, h, all);
    GrowingParts(s, h, ids);
    TreeLayout(c.tree, c.self, c.nextPort);
    var rd := Round(Request(Exec, c.tree[k].id, 0, 0, 0), Layout(c.tree), k);
    ExecLeadsOn(n, Layout(c.tree), k);
    assert FloodLeadsTo(n, rd, Layout(c.tree)[k].main);
    FloodActs(n, rd, Layout(c.tree)[k].main);
    SendStep(c, s.net, s.queues, h, all, rd, Layout(c.tree)[k].main);
    h' := Extend(h, rd, Effect(n, Layout(c.tree)[k].main, rd.req), {});
    var s' := Emit(s, Send(c, rd.req)).(execs := s.execs + {c.serial});
    SameLinked(Send(c, rd.req), s'.ctl, s.net, s'.queues, h', all);
    JustSent(s, s', h, h', all, Now(h));
    ExtendCarried(h, rd, n, {}, Rest(s));
    FreshNumber(s, h, all);
    assert Rest(s') == Rest(s);
    SameGrowing(s, s', h, h', ids);
    LedgerOpens(b, c, h, Order(ExecNode(c.tree[k].id), ids), c.serial, s'.ctl, h');
  }

  lemma FreshNumber(s: Sys, h: History, all: set<Reply>)
    requires Opens(s, h, all)
    ensures forall r :: r in s.ctl.counts || r in s.execs ==> r < Now(h)
  {
    assert forall r :: r in s.ctl.counts ==> OpenOk(h, all, s.replies, r, s.ctl.counts[r]);
  }

  lemma FloodActs(n: Net, rd: Round, x: int)
    requires FloodLeadsTo(n, rd, x)
    ensures x in n && React(n[x].self.id, n[x].slots, rd.req).Act?
  {
  }

  lemma RemoveKeeps(s: Sys, h: History, all: set<Reply>, ids: seq<int>, b: Book, id: int)
    returns (h': History, b': Book)
    requires SysInv(s, h, all, ids, b) && Enabled(s, User(RemoveNode(id)))
    ensures SysInv(Apply(s, User(RemoveNode(id))), h', all, Commanded(ids, RemoveNode(id)), b')
    ensures Ordered(b, b', Order(RemoveNode(id), ids))
  {
    hide Linked, Mirrors, TailIds, Carried, Growing, Removing, TreeOk, Chain, Clocks, RepliesSound, Settled, ScriptFor,
         Opens, Ledger, PushNext;
    LinkedFacts(s.ctl, s.net, s.queues, h, all);
    CalmIsSteady(s, h, ids);
    Lookup(s.ctl.tree, s.ctl.self, s.ctl.nextPort, id);
    var k, o := IndexOf(s.ctl.tree, id), Order(RemoveNode(id), ids);
    h', b' := h, AtOnce(b, o);
    if k == |s.ctl.tree| {
      ReportedKeeps(s, h, all, ids, b, ErrNotFound, o);
    } else if k == 0 {
      ReportedKeeps(s, h, all, ids, b, ErrControl, o);
    } else {
      h', b' := RemoveStarted(s, h, all, ids, b, k);
    }
  }

  lemma RemoveStarted(s: Sys, h: History, all: set<Reply>, ids: seq<int>, b: Book, k: nat)
    returns (h': History, b': Book)
    requires SysInv(s, h, all, ids, b) && Free(s.ctl) && |h.nets| == Now(h) + 1 && Steady(s, h, ids)
             && 0 < k < |s.ctl.tree|
    requires Where(ids, s.ctl.tree[k].id) == k
    ensures var sc := ScriptFor(s.ctl.tree, s.ctl.tree[k].id);
            SysInv(Emit(s, PushNext(s.ctl.(scripts := [sc] + s.ctl.scripts), sc)), h', all, Without(ids, k), b')
    ensures Ordered(b, b', Order(RemoveNode(s.ctl.tree[k].id), ids))
  {
    hide Linked, Mirrors, TailIds, Chain, Clocks, RepliesSound, Settled, Growing, Removing, ScriptFor, PushNext,
         Outcome, Shape, Ids, StepsDone, StepsContinue, Mode, TreeOk, Opens, Ledger;
    var c := s.ctl;
    LinkedFacts(c, s.net, s.queues, h, all);
    TreeLayout(c.tree, c.self, c.nextPort);
    ShapeBegins(h.nets[Now(h)], Layout(c.tree), k);
    var sc := ScriptFor(c.tree, c.tree[k].id);
    FreshScript(c.tree, k);
    var c0 := c.(scripts := [sc]);
    assert [sc] + c.scripts == [sc];
    SameLinked(c, c0, s.net, s.queues, h, all);
    h' := PushNextRuns(c0, s.net, s.queues, h, all, k, 0);
    var c2 := PushNext(c0, sc);
    OutcomeLog(c0, c2, s.net, s.queues, h', all, k);
    var s' := Emit(s, c2);
    SameLinked(c2, s'.ctl, s.net, s'.queues, h', all);
    b' := StartLedger(s, c0, c2, s', h, h', all, ids, b, k);
  }

  lemma StartLedger(s: Sys, c0: Ctl, c2: Ctl, s': Sys, h: History, h': History, all: set<Reply>, ids: seq<int>,
      b: Book, k: nat)
    returns (b': Book)
    requires |h'.nets| == Now(h') + 1 && h.rounds <= h'.rounds
             && (StepsDone(c0, c2, h', k) || StepsContinue(c0, c2, h', k))
    requires StepsDone(c0, c2, h', k) ==> c2.log == c0.log + [RemoveOk] && c2.counts == c0.counts
    requires StepsContinue(c0, c2, h', k) ==>
               c2.log == c0.log && c0.serial < Now(h')
                 && c2.counts == c0.counts[(Now(h') - 1) as nat := (|c2.tree| + 1) / 2]
    requires TreeOk(c0.tree, c0.self, c0.nextPort) && 0 < k < |c0.tree| && Ids(c0.tree) == ids
    requires Where(ids, c0.tree[k].id) == k && k < |ids|
    requires c0.pings.Keys == TailIds(c0.tree, |c0.tree|) && c0 == s.ctl.(scripts := c0.scripts) && c0.counts == map[]
    requires Opens(s, h, all) && RepliesSound(h, all) && c0.serial == Now(h) && Ledger(b, s.ctl, h)
    requires s'.execs == s.execs && s'.replies == s.replies && s'.ctl == c2.(out := [])
    ensures Mode(s', h', Without(ids, k)) && Opens(s', h', all) && Ledger(b', s'.ctl, h')
    ensures Ordered(b, b', Order(RemoveNode(c0.tree[k].id), ids))
  {
    hide RepliesSound, TreeOk, StepsDone, StepsContinue, Mode, Layout, Ids, TailIds, BookOk, LogFits, Without, Opens;
    var o := Order(RemoveNode(c0.tree[k].id), ids);
    OldExecs(s, h, all, h');
    if StepsDone(c0, c2, h', k) {
      DoneMode(c0, c2, s', h', Without(ids, k), k);
      NoneOpen(s, s', h, h', all);
      b' := AtOnce(b, o);
      LedgerAnswers(b, s.ctl, h, o, RemoveOk, s'.ctl, h');
    } else {
      SentMode(c0, c2, s', h', Without(ids, k), k);
      JustSent(s, s', h, h', all, Now(h') - 1);
      b' := Opened(b, o, Now(h') - 1);
      LedgerOpens(b, s.ctl, h, o, Now(h') - 1, s'.ctl, h');
    }
  }

  lemma {:induction false} FreshScript(t: seq<TreeNode>, k: nat)
    requires k < |t|
    ensures ScriptAt(t, k, 0) == ScriptFor(t, t[k].id)
    ensures 0 < k ==> 0 < StepCount(Layout(t), k)
  {
  }

  // ---- Creating a node ----

  lemma GrownTree(t: seq<TreeNode>, self: int, port: int, id: int, pid: int)
    requires TreeOk(t, self, port) && IndexOf(t, id) == |t| && pid != -1 && pid != self
    ensures TreeOk(t + [TreeNode(id, pid, port, port + 1)], self, port + 2)
    ensures Layout(t + [TreeNode(id, pid, port, port + 1)]) == Layout(t) + [Peer(id, port, port + 1)]
    ensures Ids(t + [TreeNode(id, pid, port, port + 1)]) == Ids(t) + [id]
  {
    var u := t + [TreeNode(id, pid, port, port + 1)];
    forall i, j | 0 <= i < j < |u|
      ensures Apart(u, i, j)
    {
      assert j < |t| ==> Apart(t, i, j);
      assert u[j].main == port ==> t[i].main < port;
    }
    assert u[..|t|] == t;
  }

  lemma SpawnNet(net: Net, slots: Slots, n': Net, p: Peer, qs: Queues)
    requires p.main != 0 && 0 in n' && n'[0] == Proc(NO_PEER, slots) && p.main in n'
             && n'[p.main] == Proc(p, NO_CHILDREN)
    ensures LocalNet(Whole(net, slots), n', {p.main}) == Whole(net[p.main := Proc(p, NO_CHILDREN)], slots)
    ensures LocalQueues(qs, {p.main}) == qs[p.main := []]
  {
  }

  lemma SpawnIsLocal(c: Ctl, net: Net, qs: Queues, h: History, all: set<Reply>, p: Peer)
    requires Linked(c, net, qs, h, all) && p.main == c.nextPort
    ensures LocalRound(h, OwnRound(), h.nets[Now(h)][p.main := Proc(p, NO_CHILDREN)], {p.main})
  {
    assert p.main !in h.clock && p.main != 0;
    assert p.main !in h.nets[Now(h)];
    ControlNow(c, net, qs, h, all);
  }

  lemma FreshPort(c: Ctl, net: Net, qs: Queues, h: History, all: set<Reply>)
    requires Linked(c, net, qs, h, all)
    ensures {c.nextPort} !! h.clock.Keys
  {
  }

  // A process has been started; nobody is connected to it yet.
  lemma {:induction false} SpawnStep(c: Ctl, net: Net, qs: Queues, h: History, all: set<Reply>, id: int, pid: int,
      open: set<nat>)
    requires Linked(c, net, qs, h, all) && |h.nets| == Now(h) + 1 && Carried(h, open) && OnlyCreates(h, open)
    requires IndexOf(c.tree, id) == |c.tree| && pid != -1 && pid != c.self
    ensures var node := TreeNode(id, pid, c.nextPort, c.nextPort + 1);
            var c1 := c.(tree := c.tree + [node], nextPort := c.nextPort + 2, serial := c.serial + 1);
            var h1 := Extend(h, OwnRound(), h.nets[Now(h)][node.main := Proc(PeerOf(node), NO_CHILDREN)], {node.main});
            Linked(c1, net[node.main := Proc(PeerOf(node), NO_CHILDREN)], qs[node.main := []], h1, all)
            && |h1.nets| == Now(h1) + 1 && Carried(h1, open) && OnlyCreates(h1, open)
  {
    var p := Peer(id, c.nextPort, c.nextPort + 1);
    var n' := h.nets[Now(h)][p.main := Proc(p, NO_CHILDREN)];
    var w := Whole(net, c.slots);
    GrownTree(c.tree, c.self, c.nextPort, id, pid);
    ControlNow(c, net, qs, h, all);
    CarriedSettles(h, open);
    FreshPort(c, net, qs, h, all);
    ExtendCarried(h, OwnRound(), n', {p.main}, open);
    SpawnIsLocal(c, net, qs, h, all, p);
    LocalKeepsInv(h, w, qs, OwnRound(), n', {p.main});
    SpawnNet(net, c.slots, n', p, qs);
    ExtendAnswers(h, OwnRound(), n', {p.main}, all);
  }

  // The array has a new entry, and the network too.
  lemma AttachedGrowing(s: Sys, s': Sys, h: History, h': History, ids: seq<int>, ids': seq<int>, id: int)
    requires |h.nets| == Now(h) + 1 && |h'.nets| == Now(h') + 1 && Growing(s, h, ids)
    requires h.rounds <= h'.rounds && Carried(h', Rest(s)) && Rest(s') == Rest(s) && s'.ctl.scripts == []
    requires TailIds(s'.ctl.tree, |s'.ctl.tree|) == TailIds(s.ctl.tree, |s.ctl.tree|) + {id}
    requires id !in TailIds(s.ctl.tree, |s.ctl.tree|) && s'.ctl.pings.Keys == s.ctl.pings.Keys + {id}
    requires Mirrors(h'.nets[Now(h')], Layout(s'.ctl.tree)) && Ids(s'.ctl.tree) == ids'
    ensures Growing(s', h', ids')
  {
    hide Mirrors, TailIds, Layout, Ids, Carried;
    assert forall u :: u in Rest(s) ==> CreatesOne(s, h, u);
    forall r | r in Rest(s')
      ensures CreatesOne(s', h', r)
    {
      assert CreatesOne(s, h, r);
    }
    SameCreated(s, s', h, h');
    assert id !in BeingCreated(s, h);
  }

  // The array has a new entry, and request r is to connect it.
  lemma SentGrowing(s: Sys, s': Sys, h: History, h': History, ids: seq<int>, ids': seq<int>, id: int, r: nat)
    requires |h.nets| == Now(h) + 1 && |h'.nets| == Now(h') + 1 && Growing(s, h, ids)
    requires h.rounds <= h'.rounds && Now(h) <= r < Now(h')
    requires h'.rounds[r].req.cmd == Create && h'.rounds[r].req.id == id
    requires Carried(h', Rest(s) + {r}) && Rest(s') == Rest(s) + {r} && s'.ctl.scripts == []
    requires TailIds(s'.ctl.tree, |s'.ctl.tree|) == TailIds(s.ctl.tree, |s.ctl.tree|) + {id}
    requires id !in TailIds(s.ctl.tree, |s.ctl.tree|) && s'.ctl.pings.Keys == s.ctl.pings.Keys
    requires Mirrors(h'.nets[Now(h')], Layout(s'.ctl.tree)) && Ids(s'.ctl.tree) == ids'
    ensures Growing(s', h', ids')
  {
    hide Mirrors, TailIds, Layout, Ids, Carried;
    assert forall u :: u in Rest(s) ==> CreatesOne(s, h, u);
    forall u | u in Rest(s')
      ensures CreatesOne(s', h', u)
    {
      assert u in Rest(s) ==> CreatesOne(s, h, u);
    }
    assert BeingCreated(s', h') == BeingCreated(s, h) + {id};
  }

  lemma {:induction false} NewTail(t: seq<TreeNode>, self: int, nextPort: int)
    requires TreeOk(t, self, nextPort) && |t| >= 2
    ensures TailIds(t, |t|) == TailIds(t, |t| - 1) + {t[|t| - 1].id} && t[|t| - 1].id !in TailIds(t, |t| - 1)
  {
    forall i | 0 < i < |t| - 1
      ensures t[i].id != t[|t| - 1].id
    {
      assert Apart(t, i, |t| - 1);
    }
  }

  // The controller is the new node's parent, so it attaches it itself.
  lemma FirstChild(s: Sys, h: History, h1: History, c1: Ctl, net1: Net, qs1: Queues, all: set<Reply>, ids0: seq<int>,
      ids: seq<int>, b: Book, o: Order, p: Peer)
    returns (h2: History)
    requires Linked(c1, net1, qs1, h1, all) && c1.out == [] && h.rounds <= h1.rounds
    requires |h.nets| == Now(h) + 1 && Growing(s, h, ids0)
    requires |h1.nets| == Now(h1) + 1 && Carried(h1, Rest(s)) && OnlyCreates(h1, Rest(s))
    requires Opens(s, h, all) && Ledger(b, s.ctl, h) && c1.counts == s.ctl.counts && c1.log == s.ctl.log
             && c1.scripts == s.ctl.scripts && s.ctl.tree <= c1.tree
    requires |c1.tree| >= 2 && Layout(c1.tree) == Layout(c1.tree)[..|c1.tree| - 1] + [p] && Ids(c1.tree) == ids
             && p.id == ids[|ids| - 1]
    requires FloodLeadsTo(h1.nets[Now(h1)], CreateRound(Layout(c1.tree)[..|c1.tree| - 1], p), 0)
    requires Mirrors(Effect(h1.nets[Now(h1)], 0, CreateRound(Layout(c1.tree)[..|c1.tree| - 1], p).req), Layout(c1.tree))
    requires CreateRound(Layout(c1.tree)[..|c1.tree| - 1], p).req.parent == -1
    requires TailIds(c1.tree, |c1.tree| - 1) == TailIds(s.ctl.tree, |s.ctl.tree|)
    requires c1.pings == s.ctl.pings && s.replies <= all
    requires Fits(CreateOk(Find(c1.tree, p.id).pid), o)
    ensures var c2 := PushCreate(c1, p.id, -1, p.main, p.ping);
            SysInv(Sys(c2.(out := []), net1, PushOut(qs1, c2.out), s.replies, s.execs), h2, all, ids, AtOnce(b, o))
  {
    hide Linked, Mirrors, Chain, Clocks, RepliesSound, Settled, TreeOk, Ids, Layout, Find, Opens, Ledger, Fits,
         TailIds, Growing, Carried;
    LinkedFacts(c1, net1, qs1, h1, all);
    GrowingParts(s, h, ids0);
    var n1, slots := h1.nets[Now(h1)], Attach(c1.slots, p);
    ControlNow(c1, net1, qs1, h1, all);
    var req := CreateRound(Layout(c1.tree)[..|c1.tree| - 1], p).req;
    OwnCreate(n1, c1.slots, p, req);
    FloodActs(n1, CreateRound(Layout(c1.tree)[..|c1.tree| - 1], p), 0);
    OwnStep(c1, net1, qs1, h1, all, slots, Rest(s));
    h2 := Extend(h1, OwnRound(), n1[0 := Proc(NO_PEER, slots)], {});
    var c2 := PushCreate(c1, p.id, -1, p.main, p.ping);
    var s' := Sys(c2.(out := []), net1, PushOut(qs1, c2.out), s.replies, s.execs);
    SameLinked(c1.(slots := slots, serial := c1.serial + 1), s'.ctl, net1, qs1, h2, all);
    NewTail(c1.tree, c1.self, c1.nextPort);
    LastId(c1.tree);
    assert s'.queues == qs1;
    AttachedGrowing(s, s', h, h2, ids0, ids, p.id);
    LaterOpens(s, s', h, h2, all);
    LedgerAnswers(b, s.ctl, h, o, CreateOk(Find(c1.tree, p.id).pid), s'.ctl, h2);
  }

  lemma LaterOpens(s: Sys, s': Sys, h: History, h': History, all: set<Reply>)
    requires Opens(s, h, all) && h.rounds <= h'.rounds
    requires s'.ctl.counts == s.ctl.counts && s'.replies == s.replies && s'.execs == s.execs
    ensures Opens(s', h', all)
  {
    forall r | r in s'.ctl.counts
      ensures OpenOk(h', all, s'.replies, r, s'.ctl.counts[r])
    {
      assert OpenOk(h, all, s.replies, r, s.ctl.counts[r]);
    }
  }

  lemma {:induction false} LastId(t: seq<TreeNode>)
    requires |t| >= 1
    ensures Ids(t)[|t| - 1] == t[|t| - 1].id
  {
  }

  lemma OwnCreate(n1: Net, slots: Slots, p: Peer, req: Request)
    requires 0 in n1 && n1[0] == Proc(NO_PEER, slots) && req == Request(Create, p.id, -1, p.main, p.ping)
    ensures React(n1[0].self.id, n1[0].slots, req) == Act(Attach(slots, p), false)
    ensures Effect(n1, 0, req) == n1[0 := Proc(NO_PEER, Attach(slots, p))]
  {
  }

  lemma CreateGrows(s: Sys, s': Sys, h: History, h1: History, rd: Round, n2: Net, c1: Ctl, ids0: seq<int>,
      ids: seq<int>)
    requires |h.nets| == Now(h) + 1 && Growing(s, h, ids0) && h.rounds <= h1.rounds
    requires |h1.nets| == Now(h1) + 1 && Carried(h1, Rest(s)) && TreeOk(c1.tree, c1.self, c1.nextPort)
    requires forall r :: r in s.ctl.counts || r in s.execs ==> r < Now(h)
    requires |c1.tree| >= 2 && Ids(c1.tree) == ids
             && TailIds(c1.tree, |c1.tree| - 1) == TailIds(s.ctl.tree, |s.ctl.tree|)
    requires rd.req.cmd == Create && rd.req.id == ids[|ids| - 1] && Mirrors(n2, Layout(c1.tree))
    requires s'.ctl == Send(c1, rd.req).(out := []) && s'.execs == s.execs && c1.serial == Now(h1)
    requires c1.counts == s.ctl.counts && c1.pings == s.ctl.pings && c1.scripts == s.ctl.scripts
    ensures Growing(s', Extend(h1, rd, n2, {}), ids)
  {
    hide Growing, Carried, TreeOk, TailIds, Ids, Layout, Mirrors;
    GrowingParts(s, h, ids0);
    ExtendCarried(h1, rd, n2, {}, Rest(s));
    NewTail(c1.tree, c1.self, c1.nextPort);
    LastId(c1.tree);
    assert Rest(s') == Rest(s) + {Now(h1)};
    SentGrowing(s, s', h, Extend(h1, rd, n2, {}), ids0, ids, rd.req.id, Now(h1));
  }

  lemma CreateSent(s: Sys, h: History, h1: History, c1: Ctl, net1: Net, qs1: Queues, all: set<Reply>, ids0: seq<int>,
      ids: seq<int>, b: Book, o: Order, p: Peer)
    returns (h2: History)
    requires Linked(c1, net1, qs1, h1, all) && c1.out == [] && h.rounds <= h1.rounds && RepliesSound(h, all)
    requires |h.nets| == Now(h) + 1 && Growing(s, h, ids0)
    requires |h1.nets| == Now(h1) + 1 && Carried(h1, Rest(s)) && OnlyCreates(h1, Rest(s))
    requires Opens(s, h, all) && Ledger(b, s.ctl, h) && c1.counts == s.ctl.counts && c1.log == s.ctl.log
             && c1.scripts == s.ctl.scripts && s.ctl.tree <= c1.tree
    requires |c1.tree| >= 2 && Layout(c1.tree) == Layout(c1.tree)[..|c1.tree| - 1] + [p] && Ids(c1.tree) == ids
             && p.id == ids[|ids| - 1]
    requires var c := Layout(c1.tree)[..|c1.tree| - 1];
             && FloodLeadsTo(h1.nets[Now(h1)], CreateRound(c, p), c[CreateRound(c, p).a].main)
             && Mirrors(Effect(h1.nets[Now(h1)], c[CreateRound(c, p).a].main, CreateRound(c, p).req), Layout(c1.tree))
             && CreateRound(c, p).a > 0 && CreateRound(c, p).req.parent != -1
    requires TailIds(c1.tree, |c1.tree| - 1) == TailIds(s.ctl.tree, |s.ctl.tree|)
    requires c1.pings == s.ctl.pings && s.replies <= all && Find(c1.tree, p.id).pid != -1
    requires o.wish.CreateNode? && o.wish.id == p.id && Find(c1.tree, p.id).pid == o.wish.pid
             && Where(o.ids, p.id) == |o.ids|
    ensures var c2 := PushCreate(c1, p.id, CreateRound(Layout(c1.tree)[..|c1.tree| - 1], p).req.parent, p.main, p.ping);
            SysInv(Sys(c2.(out := []), net1, PushOut(qs1, c2.out), s.replies, s.execs), h2, all, ids,
              Opened(b, o, Now(h1)))
  {
    hide Linked, Mirrors, Chain, Clocks, RepliesSound, Settled, TreeOk, Ids, Layout, TailIds, FloodLeadsTo, Opens,
         Ledger, Find, Growing, Carried, Effect, React, CreatesOne, OpenOk;
    GrowingParts(s, h, ids0);
    CarriedSettles(h1, Rest(s));
    var c := Layout(c1.tree)[..|c1.tree| - 1];
    var rd := CreateRound(c, p);
    var n1, x := h1.nets[Now(h1)], c[rd.a].main;
    LinkedFacts(c1, net1, qs1, h1, all);
    FloodActs(n1, rd, x);
    SendStep(c1, net1, qs1, h1, all, rd, x);
    h2 := Extend(h1, rd, Effect(n1, x, rd.req), {});
    var c2 := PushCreate(c1, p.id, rd.req.parent, p.main, p.ping);
    assert c2 == Send(c1, rd.req);
    var s' := Sys(c2.(out := []), net1, PushOut(qs1, c2.out), s.replies, s.execs);
    SameLinked(c2, s'.ctl, net1, s'.queues, h2, all);
    OldExecs(s, h, all, h2);
    JustSent(s, s', h, h2, all, Now(h1));
    FreshNumber(s, h, all);
    CreateGrows(s, s', h, h1, rd, Effect(n1, x, rd.req), c1, ids0, ids);
    FoundIsThere(c1.tree, p.id);
    LedgerOpens(b, s.ctl, h, o, Now(h1), s'.ctl, h2);
  }

  lemma {:induction false} FoundIsThere(t: seq<TreeNode>, id: int)
    requires Find(t, id).pid != -1
    ensures IndexOf(t, id) < |t|
  {
  }

  // The controller's records once the new node is listed and its process runs.
  function Listing(c: Ctl, id: int, pid: int): Ctl {
    c.(tree := c.tree + [TreeNode(id, pid, c.nextPort, c.nextPort + 1)], nextPort := c.nextPort + 2,
      serial := c.serial + 1)
  }

  lemma ListingFits(c: Ctl, n: Net, id: int, pid: int)
    requires TreeOk(c.tree, c.self, c.nextPort) && IndexOf(c.tree, id) == |c.tree| && pid != -1 && pid != c.self
    requires Mirrors(n, Layout(c.tree))
    ensures var c1, p := Listing(c, id, pid), Peer(id, c.nextPort, c.nextPort + 1);
            && |c1.tree| >= 2 && Ids(c1.tree) == Ids(c.tree) + [id]
            && Layout(c1.tree) == Layout(c.tree) + [p] && Layout(c1.tree)[..|c1.tree| - 1] == Layout(c.tree)
            && TailIds(c1.tree, |c1.tree| - 1) == TailIds(c.tree, |c.tree|)
    ensures var c1, p := Listing(c, id, pid), Peer(id, c.nextPort, c.nextPort + 1);
            var rd, n1 := CreateRound(Layout(c.tree), p), n[p.main := Proc(p, NO_CHILDREN)];
            && FloodLeadsTo(n1, rd, Layout(c.tree)[rd.a].main)
            && Mirrors(Effect(n1, Layout(c.tree)[rd.a].main, rd.req), Layout(c1.tree))
            && (|c1.tree| - 2) / 2 == rd.a && c1.tree[rd.a].id == rd.req.parent
            && (rd.req.parent == -1 <==> rd.a == 0) && (Layout(c.tree)[rd.a].main == 0 <==> rd.a == 0)
  {
    hide Mirrors, FloodLeadsTo, TailIds, TreeOk;
    var node := TreeNode(id, pid, c.nextPort, c.nextPort + 1);
    GrownTree(c.tree, c.self, c.nextPort, id, pid);
    TreeLayout(Listing(c, id, pid).tree, c.self, c.nextPort + 2);
    CreateLeadsOn(n, Layout(c.tree), PeerOf(node));
    TailIdsSame(c.tree, node);
    RootOnlyAtZero(c.tree, c.self, c.nextPort, (|c.tree| - 1) / 2);
  }

  // Where a lookup finds the node just listed.
  lemma {:induction false} NewIsFound(t: seq<TreeNode>, node: TreeNode)
    requires IndexOf(t, node.id) == |t|
    ensures Find(t + [node], node.id) == node
  {
    var i := IndexOf(t + [node], node.id);
    assert (t + [node])[|t|] == node;
    assert forall j :: 0 <= j < |t| ==> (t + [node])[j].id == t[j].id;
  }

  lemma CreateNew(s: Sys, h: History, all: set<Reply>, ids: seq<int>, b: Book, id: int, pid: int)
    returns (h': History, b': Book)
    requires SysInv(s, h, all, ids, b) && |h.nets| == Now(h) + 1 && Growing(s, h, ids)
    requires IndexOf(s.ctl.tree, id) == |s.ctl.tree| && Where(ids, id) == |ids| && pid != -1 && pid != s.ctl.self
    ensures var c1, p := Listing(s.ctl, id, pid), Peer(id, s.ctl.nextPort, s.ctl.nextPort + 1);
            |c1.tree| >= 2 &&
            var c2 := PushCreate(c1, id, c1.tree[(|c1.tree| - 2) / 2].id, p.main, p.ping);
            SysInv(Sys(c2.(out := []), s.net[p.main := Proc(p, NO_CHILDREN)],
                       PushOut(s.queues[p.main := []], c2.out), s.replies, s.execs), h', all, ids + [id], b')
    ensures Ordered(b, b', Order(CreateNode(id, pid), ids))
  {
    hide Linked, Mirrors, Chain, Clocks, RepliesSound, Settled, TailIds, FloodLeadsTo, TreeOk, PushCreate, Growing,
         Removing, Layout, Ids, Mode, Opens, Ledger, Find;
    var c, c1, p := s.ctl, Listing(s.ctl, id, pid), Peer(id, s.ctl.nextPort, s.ctl.nextPort + 1);
    var o := Order(CreateNode(id, pid), ids);
    LinkedFacts(c, s.net, s.queues, h, all);
    GrowingParts(s, h, ids);
    SpawnStep(c, s.net, s.queues, h, all, id, pid, Rest(s));
    ListingFits(c, h.nets[Now(h)], id, pid);
    NewIsFound(c.tree, TreeNode(id, pid, c.nextPort, c.nextPort + 1));
    var h1 := Extend(h, OwnRound(), h.nets[Now(h)][p.main := Proc(p, NO_CHILDREN)], {p.main});
    var net1, qs1 := s.net[p.main := Proc(p, NO_CHILDREN)], s.queues[p.main := []];
    if CreateRound(Layout(c.tree), p).a == 0 {
      b' := AtOnce(b, o);
      h' := FirstChild(s, h, h1, c1, net1, qs1, all, ids, ids + [id], b, o, p);
    } else {
      b' := Opened(b, o, Now(h1));
      h' := CreateSent(s, h, h1, c1, net1, qs1, all, ids, ids + [id], b, o, p);
    }
  }

  lemma TailIdsSame(t: seq<TreeNode>, node: TreeNode)
    ensures TailIds(t + [node], |t|) == TailIds(t, |t|)
  {
    assert forall i :: 0 <= i < |t| ==> (t + [node])[i] == t[i];
  }

  lemma {:induction false} RootOnlyAtZero(t: seq<TreeNode>, self: int, nextPort: int, q: nat)
    requires TreeOk(t, self, nextPort) && q < |t|
    ensures t[q].id == -1 <==> q == 0
    ensures Layout(t)[q].main == 0 <==> q == 0
  {
  }

  lemma CreateKeeps(s: Sys, h: History, all: set<Reply>, ids: seq<int>, b: Book, id: int, pid: int)
    returns (h': History, b': Book)
    requires SysInv(s, h, all, ids, b) && Enabled(s, User(CreateNode(id, pid)))
    ensures SysInv(Apply(s, User(CreateNode(id, pid))), h', all, Commanded(ids, CreateNode(id, pid)), b')
    ensures Ordered(b, b', Order(CreateNode(id, pid), ids))
  {
    hide Linked, Mirrors, TailIds, Carried, Growing, Removing, TreeOk, Chain, Clocks, RepliesSound, Settled,
         PushCreate, Opens, Ledger, Mode, IndexOf, OnlyCreates, PushOut;
    LinkedFacts(s.ctl, s.net, s.queues, h, all);
    NoRemoval(s, h, ids);
    GrowingParts(s, h, ids);
    Lookup(s.ctl.tree, s.ctl.self, s.ctl.nextPort, id);
    var o := Order(CreateNode(id, pid), ids);
    if IndexOf(s.ctl.tree, id) < |s.ctl.tree| {
      ReportedKeeps(s, h, all, ids, b, ErrExists, o);
      h', b' := h, AtOnce(b, o);
    } else {
      h', b' := CreateNew(s, h, all, ids, b, id, pid);
      CreatedTree(s.ctl, id, pid);
    }
  }

  // cmd_create on a new id adds exactly one entry, whatever it sends.
  lemma CreatedTree(c: Ctl, id: int, pid: int)
    requires Find(c.tree, id).pid == -1 && |c.tree| > 0
    ensures CmdCreate(c, id, pid).tree == c.tree + [TreeNode(id, pid, c.nextPort, c.nextPort + 1)]
  {
  }
}
