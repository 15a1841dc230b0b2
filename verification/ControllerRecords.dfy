// What the controller keeps of its nodes besides the array: the heartbeat counters of a run, and what is
// left of a create or a removal that a node refuses.
module ControllerRecords {
  import opened Overlay
  import opened TreeArray
  import opened Controller
  import opened TreeRuns
  import opened TreeTheorems

  // ---- Registered with a counter of zero ----

  predicate AllZero(pings: map<int, int>) { forall id :: id in pings ==> pings[id] == 0 }

  lemma {:induction false} RecRemoveZero(c: Ctl, cmd: Command, id: int, code: Code, count: int)
    requires AllZero(c.pings)
    ensures AllZero(RecRemove(c, cmd, id, code, count).pings)
    decreases TotalLeft(c.scripts), 0
  {
    hide PushNext, Removed, StandsAt;
    var i := Matching(c.scripts, cmd, id);
    if i < |c.scripts| {
      var sc := c.scripts[i].(now := c.scripts[i].now + 1);
      TotalLeftUpdate(c.scripts, i, sc);
      if code == Ok && sc.now < sc.number {
        PushNextZero(c.(scripts := c.scripts[i := sc]), sc);
      }
    }
  }

  lemma {:induction false} PushNextZero(c: Ctl, sc: Script)
    requires AllZero(c.pings)
    ensures AllZero(PushNext(c, sc).pings)
    decreases TotalLeft(c.scripts), 1
  {
    hide RecRemove;
    if Decode(sc).Some? {
      var req := Decode(sc).value;
      if req.cmd == Disconnect {
        RecRemoveZero(c.(slots := Detach(c.slots, req.id), serial := c.serial + 1), Disconnect, req.id, Ok, 0);
      } else if req.cmd == Connect {
        RecRemoveZero(c.(slots := Attach(c.slots, Peer(req.id, req.main, req.ping)), serial := c.serial + 1),
                      Connect, req.id, Ok, 0);
      } else if req.cmd == Ping {
        RecRemoveZero(c.(serial := c.serial + 1), Ping, req.id, Ok, 0);
      }
    }
  }

  lemma StepZero(s: Sys, a: Action)
    requires Enabled(s, a) && AllZero(s.ctl.pings)
    ensures AllZero(Apply(s, a).ctl.pings)
  {
    hide RecRemove, PushNext, Find, Removed, ScriptFor, Deliver;
    match a
    case User(RemoveNode(id)) =>
      if |s.ctl.tree| > 0 {
        var sc := ScriptFor(s.ctl.tree, id);
        PushNextZero(s.ctl.(scripts := [sc] + s.ctl.scripts), sc);
      }
    case Receive(m) =>
      if m.uuid in s.ctl.counts {
        var count := s.ctl.counts[m.uuid] - 1;
        RecRemoveZero(s.ctl.(counts := s.ctl.counts[m.uuid := count]), m.cmd, m.id, m.code, count);
      }
    case _ =>
  }

  lemma {:induction false} RunZero(s: Sys, acts: seq<Action>)
    requires Runnable(s, acts) && AllZero(s.ctl.pings)
    ensures AllZero(Run(s, acts).ctl.pings)
    decreases |acts|
  {
    hide Apply, Enabled, AllZero;
    if acts != [] {
      StepZero(s, acts[0]);
      RunZero(Apply(s, acts[0]), acts[1..]);
    }
  }

  // Whatever a run does, a node is registered with no silent round counted against it.
  lemma {:induction false} RegisteredAtZero(self: int, acts: seq<Action>)
    requires Runnable(TreeTheorems.Start(self), acts)
    ensures var pings := Run(TreeTheorems.Start(self), acts).ctl.pings; forall id :: id in pings ==> pings[id] == 0
  {
    hide Run, Runnable;
    RunZero(TreeTheorems.Start(self), acts);
  }

  // ---- What a failure leaves ----

  lemma {:induction false} FoundLast(t: seq<TreeNode>, node: TreeNode)
    requires IndexOf(t, node.id) == |t|
    ensures IndexOf(t + [node], node.id) == |t|
  {
    var i := IndexOf(t + [node], node.id);
    assert (t + [node])[|t|] == node;
    assert forall j :: 0 <= j < |t| ==> (t + [node])[j].id == t[j].id;
  }

  // A create that is answered with an error is taken back: the array is what it was before.
  lemma {:induction false} FailedCreateUndone(c: Ctl, id: int, pid: int, from: int)
    requires IndexOf(c.tree, id) == |c.tree| >= 3 && c.tree[(|c.tree| - 1) / 2].id != -1
    requires c.serial + 1 !in c.counts
    ensures var c1 := ReceiveProcess(CmdCreate(c, id, pid), Reply(c.serial + 1, Create, id, Custom, from));
            c1.tree == c.tree && c1.pings == c.pings && c1.counts == c.counts && c1.log == c.log + [CreateFailed]
  {
    hide IndexOf;
    var node := TreeNode(id, pid, c.nextPort, c.nextPort + 1);
    FoundLast(c.tree, node);
    var t := c.tree + [node];
    assert t[(|t| - 2) / 2] == c.tree[(|c.tree| - 1) / 2];
    assert t[|c.tree| := t[|t| - 1]][..|t| - 1] == c.tree;
  }

  // A removal one of whose commands fails is given up: its script goes, the others and the array stay.
  lemma FailedRemovalGivenUp(c: Ctl, m: Reply, i: nat)
    requires m.uuid in c.counts && !m.cmd.Create? && !m.cmd.Exec?
    requires m.code == Custom || (m.code == NotFound && c.counts[m.uuid] == 1)
    requires i < |c.scripts| && StandsAt(c.scripts[i], m.cmd, m.id)
    requires forall j :: 0 <= j < i ==> !StandsAt(c.scripts[j], m.cmd, m.id)
    ensures var c1 := ReceiveProcess(c, m);
            c1 == c.(counts := c1.counts, scripts := c.scripts[..i] + c.scripts[i + 1..],
                     log := c.log + [RemoveFailed(m.cmd, m.id)])
            && c1.counts.Keys == c.counts.Keys - {m.uuid}
  {
    hide PushNext, StandsAt, Removed;
    assert Matching(c.scripts, m.cmd, m.id) == i;
  }
}
