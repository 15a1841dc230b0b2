// The compute nodes' objects inside a running system: whatever state a run has reached, the oldest
// request of any process may be handed to its object, and the object does what the run does.
module NodeObjects {
  import opened Overlay
  import opened Flood
  import opened Answers
  import opened TreeArray
  import opened Controller
  import opened Scripts
  import opened TreeSystem
  import opened TreeLedger
  import opened TreeRuns
  import opened TreeTheorems
  import C = ControlNode
  import N = ComputeNode
  import O = TreeObjects

  // ---- Every request on its way names real nodes and real ports ----

  ghost predicate OutSound(out: seq<(int, Msg)>) { forall i :: 0 <= i < |out| ==> N.Connectable(out[i].1.req) }

  ghost predicate InboxesSound(qs: Queues) {
    forall x, j :: x in qs && 0 <= j < |qs[x]| ==> N.Connectable(qs[x][j].req)
  }

  lemma SendSound(c: Ctl, req: Request)
    requires OutSound(c.out) && N.Connectable(req)
    ensures OutSound(Send(c, req).out)
  {
  }

  lemma {:induction false} RecRemoveSound(c: Ctl, cmd: Command, id: int, code: Code, count: int)
    requires C.AllReadable(c.scripts) && OutSound(c.out)
    ensures OutSound(RecRemove(c, cmd, id, code, count).out)
    decreases TotalLeft(c.scripts), 0
  {
    hide C.AllReadable, C.Readable, OutSound, PushNext, StandsAt, Removed;
    var i := Matching(c.scripts, cmd, id);
    if i < |c.scripts| {
      var sc := c.scripts[i].(now := c.scripts[i].now + 1);
      TotalLeftUpdate(c.scripts, i, sc);
      C.ReadableKept(c.scripts, i, sc);
      if code == Ok && sc.now < sc.number {
        PushNextSound(c.(scripts := c.scripts[i := sc]), sc);
      }
    }
  }

  lemma {:induction false} PushNextSound(c: Ctl, sc: Script)
    requires C.AllReadable(c.scripts) && C.Readable(sc) && OutSound(c.out)
    ensures OutSound(PushNext(c, sc).out)
    decreases TotalLeft(c.scripts), 1
  {
    hide C.AllReadable, OutSound, Decode, RecRemove, Send;
    assert C.Connecting(Decode(sc.(now := sc.now)));
    assert sc.(now := sc.now) == sc;
    var req := Decode(sc).value;
    SendSound(c, req);
    if req.cmd == Disconnect {
      RecRemoveSound(c.(slots := Detach(c.slots, req.id), serial := c.serial + 1), Disconnect, req.id, Ok, 0);
    } else if req.cmd == Connect {
      RecRemoveSound(c.(slots := Attach(c.slots, Peer(req.id, req.main, req.ping)), serial := c.serial + 1),
                     Connect, req.id, Ok, 0);
    } else if req.cmd == Ping {
      RecRemoveSound(c.(serial := c.serial + 1), Ping, req.id, Ok, 0);
    }
  }

  lemma RootFound(t: seq<TreeNode>, self: int, nextPort: int)
    requires TreeOk(t, self, nextPort)
    ensures nextPort > 0 && |t| > 0 && Find(t, -1).pid != -1
  {
  }

  lemma CommandSound(c: Ctl, w: Wish)
    requires TreeOk(c.tree, c.self, c.nextPort) && C.AllReadable(c.scripts) && c.out == []
    ensures match w
            case CreateNode(id, pid) => OutSound(CmdCreate(c, id, pid).out)
            case RemoveNode(id) => OutSound(CmdRemove(c, id).out)
            case ExecNode(id) => OutSound(CmdExec(c, id).out)
  {
    hide TreeOk, Find, PushNext, ScriptFor, C.Readable;
    RootFound(c.tree, c.self, c.nextPort);
    match w
    case CreateNode(id, pid) =>
    case RemoveNode(id) =>
      if Find(c.tree, id).pid != -1 && Find(c.tree, id).pid != c.self {
        C.ScriptReadable(c.tree, c.self, c.nextPort, id);
        var sc := ScriptFor(c.tree, id);
        PushNextSound(c.(scripts := [sc] + c.scripts), sc);
      }
    case ExecNode(id) =>
  }

  lemma ReceiptSound(c: Ctl, m: Reply)
    requires C.AllReadable(c.scripts) && c.out == []
    ensures OutSound(ReceiveProcess(c, m).out)
  {
    hide C.AllReadable, RecRemove, Find, Removed;
    if m.uuid in c.counts {
      var count := c.counts[m.uuid] - 1;
      RecRemoveSound(c.(counts := c.counts[m.uuid := count]), m.cmd, m.id, m.code, count);
    }
  }

  lemma PushSound(qs: Queues, port: int, m: Msg)
    requires InboxesSound(qs) && N.Connectable(m.req)
    ensures InboxesSound(Push(qs, port, m))
  {
  }

  lemma {:induction false} PushOutSound(qs: Queues, out: seq<(int, Msg)>)
    requires InboxesSound(qs) && OutSound(out)
    ensures InboxesSound(PushOut(qs, out))
    decreases |out|
  {
    if out != [] {
      PushSound(qs, out[0].0, out[0].1);
      PushOutSound(Push(qs, out[0].0, out[0].1), out[1..]);
    }
  }

  lemma DeliverSound(net: Net, qs: Queues, x: int, custom: bool)
    requires x in net && x in qs && qs[x] != [] && InboxesSound(qs)
    ensures InboxesSound(Deliver(net, qs, x, custom).queues)
  {
    var m, s := qs[x][0], net[x].slots;
    var rest := qs[x := qs[x][1..]];
    assert InboxesSound(rest);
    PushSound(rest, s.left.main, m);
    PushSound(Push(rest, s.left.main, m), s.right.main, m);
  }

  lemma StepSound(s: Sys, h: History, all: set<Reply>, ids: seq<int>, b: Book, a: Action)
    requires SysInv(s, h, all, ids, b) && Enabled(s, a) && InboxesSound(s.queues)
    ensures InboxesSound(Apply(s, a).queues)
  {
    hide SysInv, Deliver, ReceiveProcess, CmdCreate, CmdRemove, CmdExec, TreeOk, C.AllReadable, OutSound;
    O.ScriptsReadable(s, h, all, ids, b);
    OutIsEmpty(s, h, all, ids, b);
    match a
    case Process(x, custom) => DeliverSound(s.net, s.queues, x, custom);
    case Receive(m) =>
      ReceiptSound(s.ctl, m);
      PushOutSound(s.queues, ReceiveProcess(s.ctl, m).out);
    case User(w) =>
      CommandSound(s.ctl, w);
      match w {
        case CreateNode(id, pid) =>
          var c := CmdCreate(s.ctl, id, pid);
          PushOutSound(Spawn(s, c).queues, c.out);
        case RemoveNode(id) => PushOutSound(s.queues, CmdRemove(s.ctl, id).out);
        case ExecNode(id) => PushOutSound(s.queues, CmdExec(s.ctl, id).out);
      }
  }

  lemma {:induction false} RunSound(s: Sys, h: History, all: set<Reply>, ids: seq<int>, b: Book, acts: seq<Action>)
    returns (h': History, all': set<Reply>, b': Book)
    requires SysInv(s, h, all, ids, b) && Runnable(s, acts) && InboxesSound(s.queues)
    ensures SysInv(Run(s, acts), h', all', Sequential(ids, acts), b') && InboxesSound(Run(s, acts).queues)
    decreases |acts|
  {
    hide SysInv, Apply, Enabled, Meant, InboxesSound;
    h', all', b' := h, all, b;
    if acts != [] {
      StepSound(s, h, all, ids, b, acts[0]);
      h', all', b' := StepKeeps(s, h, all, ids, b, acts[0]);
      h', all', b' := RunSound(Apply(s, acts[0]), h', all', Meant(ids, acts[0]), b', acts[1..]);
    }
  }

  // In every reachable state each process can carry out the oldest request it has: it is about real
  // nodes and ports, and the process either acts on it or has to pass it on.
  lemma {:induction false} RequestsAreServed(self: int, acts: seq<Action>, x: int)
    requires self != -1 && Runnable(TreeTheorems.Start(self), acts)
    requires var s := Run(TreeTheorems.Start(self), acts); x in s.queues && s.queues[x] != []
    ensures var s := Run(TreeTheorems.Start(self), acts); x in s.net && N.Connectable(s.queues[x][0].req)
    ensures var s := Run(TreeTheorems.Start(self), acts);
            !React(s.net[x].self.id, s.net[x].slots, s.queues[x][0].req).Silent?
  {
    hide SysInv, Run, Runnable, FloodInv, Facing;
    var h0 := StartKeeps(self);
    var h, all, b := RunSound(TreeTheorems.Start(self), h0, {}, [-1], BLANK, acts);
    var s := Run(TreeTheorems.Start(self), acts);
    InvFlood(s, h, all, Sequential([-1], acts), b);
    QueueOwner(h, Whole(s.net, s.ctl.slots), s.queues, x);
    var i := HeadIsFaced(h, Whole(s.net, s.ctl.slots), s.queues, x);
    FacingReacts(h, Whole(s.net, s.ctl.slots), x, s.queues[x][0].uuid, i);
  }

  lemma InvFlood(s: Sys, h: History, all: set<Reply>, ids: seq<int>, b: Book)
    requires SysInv(s, h, all, ids, b)
    ensures FloodInv(h, Whole(s.net, s.ctl.slots), s.queues) && 0 !in s.net && |h.nets| == Now(h) + 1
  {
  }

  lemma FacingReacts(h: History, net: Net, x: int, r: nat, i: nat)
    requires |h.nets| == Now(h) + 1 && Facing(h, net, x, r, i)
    ensures r < Now(h) && x in net && !React(net[x].self.id, net[x].slots, h.rounds[r].req).Silent?
  {
  }

  // ---- The object of a process ----

  // p is process x of the network.
  ghost predicate Stands(p: N.ComputeNode, net: Net, x: int)
    reads p, p.node
  {
    && p.Valid() && !p.exited && p.port == x && x in net
    && p.id == net[x].self.id && p.node.Children() == net[x].slots
  }

  // What a node that was process x has done with its oldest request: what its slots are now, whether it
  // has exited, what it has sent and what it has replied.
  predicate Done(s: Sys, x: int, custom: bool, slots: Slots, exited: bool, sent: seq<(int, Msg)>, replies: seq<Reply>)
    requires Enabled(s, Process(x, custom))
  {
    var m, p := s.queues[x][0], s.net[x];
    match React(p.self.id, p.slots, m.req)
    case Act(after, exits) =>
      && exited == exits && (!exits ==> slots == after) && sent == []
      && replies == [Reply(m.uuid, m.req.cmd, m.req.id, if m.req.cmd == Exec && custom then Custom else Ok, x)]
    case Forward =>
      && !exited && slots == p.slots
      && if IsLeaf(p.slots) then sent == [] && replies == [Reply(m.uuid, m.req.cmd, m.req.id, NotFound, x)]
         else sent == PushOne(PushOne([], p.slots.left.main, m), p.slots.right.main, m) && replies == []
    case Silent => !exited && slots == p.slots && sent == [] && replies == []
  }

  // ... is what the run's step does.
  lemma {:induction false} DoneIsStep(s: Sys, x: int, custom: bool, slots: Slots, exited: bool, sent: seq<(int, Msg)>,
                   replies: seq<Reply>)
    requires Enabled(s, Process(x, custom)) && Done(s, x, custom, slots, exited, sent, replies)
    ensures var s' := Apply(s, Process(x, custom));
            && (if exited then x !in s'.net else x in s'.net && s'.net[x] == Proc(s.net[x].self, slots))
            && s'.queues == (if exited then s.queues - {x} else PushOut(s.queues[x := s.queues[x][1..]], sent))
            && s'.replies == s.replies + (set r | r in replies)
  {
    var rest := s.queues[x := s.queues[x][1..]];
    SentReaches(rest, s.net[x].slots, s.queues[x][0]);
    assert PushOut(rest, []) == rest;
  }

  // One pass of the main loop: the object is left with the slots, has written the reply and has sent
  // the messages of the run's step, and has exited if the process is gone.
  method Serve(p: N.ComputeNode, m: Msg, custom: bool, ghost x: int, ghost self: int, ghost acts: seq<Action>)
    requires self != -1 && Runnable(TreeTheorems.Start(self), acts)
    requires var s := Run(TreeTheorems.Start(self), acts);
             Enabled(s, Process(x, custom)) && s.queues[x][0] == m && Stands(p, s.net, x)
    modifies p, p.node
    ensures old(p.sent) <= p.sent && old(p.replies) <= p.replies
    ensures var s := Run(TreeTheorems.Start(self), acts);
            var s' := Apply(s, Process(x, custom));
            && (if x in s'.net then Stands(p, s'.net, x) else p.exited)
            && s'.queues == (if p.exited then s.queues - {x}
                             else PushOut(s.queues[x := s.queues[x][1..]], p.sent[|old(p.sent)|..]))
            && s'.replies == s.replies + (set r | r in p.replies[|old(p.replies)|..])
  {
    hide Run, Runnable;
    ghost var s := Run(TreeTheorems.Start(self), acts);
    RequestsAreServed(self, acts, x);
    ghost var sent, replies := p.sent, p.replies;
    p.Handle(m, custom);
    assert PushOne(PushOne(sent, p.node.leftMain, m), p.node.rightMain, m)
        == sent + PushOne(PushOne([], p.node.leftMain, m), p.node.rightMain, m);
    DoneIsStep(s, x, custom, p.node.Children(), p.exited, p.sent[|sent|..], p.replies[|replies|..]);
  }
}
