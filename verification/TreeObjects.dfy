// The controller's objects inside a running system: whatever state a run has reached, the methods of
// the control node may be called, and they take it where the run goes.
module TreeObjects {
  import opened Overlay
  import opened Flood
  import opened Answers
  import opened Phases
  import opened Shapes
  import opened TreeArray
  import opened Controller
  import opened Scripts
  import opened TreeSystem
  import opened TreeLedger
  import opened TreeRuns
  import C = ControlNode
  import R = RmList

  lemma {:induction false} StepReadable(t: seq<TreeNode>, self: int, nextPort: int, k: nat, step: nat)
    requires TreeOk(t, self, nextPort) && 0 < k < |t| && step < StepCount(Layout(t), k)
    ensures C.Readable(ScriptAt(t, k, step))
  {
    hide TreeOk, StepRound, ScriptFor, Decode, StandsAt;
    var sc, c := ScriptAt(t, k, step), Layout(t);
    TreeLayout(t, self, nextPort);
    PingsSet(t, self, nextPort);
    ScriptHoldsSteps(t, self, nextPort, k, step);
    forall s | step <= s < StepCount(c, k)
      ensures C.Connecting(Decode(sc.(now := s)))
    {
      ScriptHoldsSteps(t, self, nextPort, k, s);
      C.StepConnects(c, k, s);
      assert sc.(now := s) == ScriptFor(t, t[k].id).(now := s);
    }
  }

  lemma {:induction false} PingsSet(t: seq<TreeNode>, self: int, nextPort: int)
    requires TreeOk(t, self, nextPort)
    ensures |t| > 0 && forall i :: 0 < i < |t| ==> Layout(t)[i].ping != 0
  {
  }

  // Every pending script can be read to its end.
  lemma ScriptsReadable(s: Sys, h: History, all: set<Reply>, ids: seq<int>, b: Book)
    requires SysInv(s, h, all, ids, b)
    ensures C.AllReadable(s.ctl.scripts) && TreeOk(s.ctl.tree, s.ctl.self, s.ctl.nextPort) && |s.ctl.tree| > 0
  {
    hide Linked, Opens, Ledger, Chain, Clocks, RepliesSound, Settled, TreeOk, StepRound, ScriptFor, Shape, C.Readable,
         Ids, Layout;
    LinkedFacts(s.ctl, s.net, s.queues, h, all);
    PingsSet(s.ctl.tree, s.ctl.self, s.ctl.nextPort);
    if s.ctl.scripts != [] {
      var k: nat, step: nat :| Removing(s, h, ids, k, step);
      StepReadable(s.ctl.tree, s.ctl.self, s.ctl.nextPort, k, step);
    }
  }

  lemma CountOk(s: Sys, h: History, all: set<Reply>, r: nat)
    requires Opens(s, h, all) && r in s.ctl.counts
    ensures OpenOk(h, all, s.replies, r, s.ctl.counts[r])
    ensures r < Now(h) && !h.rounds[r].req.cmd.Exec? ==> r !in s.execs
  {
  }

  // The answer to a removal's request is the one its script waits for.
  lemma WaitedFor(s: Sys, h: History, ids: seq<int>, r: nat)
    requires |h.nets| == Now(h) + 1 && Mode(s, h, ids) && TreeOk(s.ctl.tree, s.ctl.self, s.ctl.nextPort)
    requires r in s.ctl.counts && r !in s.execs && r < Now(h) && !h.rounds[r].req.cmd.Create?
    ensures Matching(s.ctl.scripts, h.rounds[r].req.cmd, h.rounds[r].req.id) < |s.ctl.scripts|
  {
    hide TreeOk, StepRound, ScriptFor, Shape, Ids, Layout, Matching, Mirrors, TailIds, Carried;
    if Growing(s, h, ids) {
      OpenCreate(s, h, ids, r);
    }
    var k: nat, step: nat :| Removing(s, h, ids, k, step);
    ScriptHoldsSteps(s.ctl.tree, s.ctl.self, s.ctl.nextPort, k, step);
    FirstMatches(s.ctl.scripts, h.rounds[r].req.cmd, h.rounds[r].req.id);
  }

  lemma {:induction false} FirstMatches(scripts: seq<Script>, cmd: Command, id: int)
    requires scripts != [] && StandsAt(scripts[0], cmd, id)
    ensures Matching(scripts, cmd, id) == 0
  {
  }

  // A script waits for every answer that does more than count.
  lemma AnswerExpected(s: Sys, h: History, all: set<Reply>, ids: seq<int>, b: Book, m: Reply)
    requires SysInv(s, h, all, ids, b) && m in s.replies && m.uuid in s.ctl.counts
    ensures s.ctl.counts[m.uuid] > 0 && C.Expected(s.ctl.scripts, m, s.ctl.counts[m.uuid] - 1)
  {
    hide Linked, Mode, Ledger, OpenOk, Chain, Clocks, RepliesSound, Settled, TreeOk, Matching, Opens;
    LinkedFacts(s.ctl, s.net, s.queues, h, all);
    CountOk(s, h, all, m.uuid);
    StillCounting(h, all, s.replies, m, s.ctl.counts[m.uuid]);
    if m.code != NotFound && !m.cmd.Create? && !m.cmd.Exec? {
      FinalAnswer(h, all, m);
      WaitedFor(s, h, ids, m.uuid);
    }
  }

  // What the run does to the controller, up to the messages it has pushed.
  ghost predicate Agrees(c: Ctl, s: Sys) { c.(out := []) == s.ctl }

  // In any reachable state every command and every pending reply may be handed to the objects, and
  // they end where the run ends.  `el` is the cell malloc returns if a script is listed.
  method Serve(node: C.ControlNode, a: Action, el: R.Ptr,
               ghost s: Sys, ghost h: History, ghost all: set<Reply>, ghost ids: seq<int>, ghost b: Book)
    requires node.Valid() && node.View() == s.ctl && SysInv(s, h, all, ids, b) && Enabled(s, a) && !a.Process?
    requires el !in node.list.mem
    modifies node, node.tree, node.tree.buf, node.node, node.list
    ensures node.Valid() && Agrees(node.View(), Apply(s, a))
  {
    hide SysInv, ReceiveProcess, CmdCreate, CmdRemove, CmdExec, C.AllReadable, C.Expected, TreeOk;
    ScriptsReadable(s, h, all, ids, b);
    RootOf(s.ctl.tree, s.ctl.self, s.ctl.nextPort);
    match a
    case User(CreateNode(id, pid)) => node.CreateNode(id, pid);
    case User(RemoveNode(id)) => node.RemoveNode(id, el);
    case User(ExecNode(id)) => node.ExecNode(id);
    case Receive(m) =>
      if m.uuid in s.ctl.counts {
        AnswerExpected(s, h, all, ids, b, m);
      }
      node.Receive(m);
  }

  lemma RootOf(t: seq<TreeNode>, self: int, nextPort: int)
    requires TreeOk(t, self, nextPort)
    ensures |t| > 0 && t[0].id == -1 && t[0].pid != -1 && nextPort > 0
  {
  }
}
