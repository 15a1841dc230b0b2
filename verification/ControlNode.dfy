// The control process (control_node.c), with the array of nodes, its own child slots and the list of
// pending removals as objects it changes in place.
module ControlNode {
  import opened Overlay
  import opened TreeArray
  import opened Controller
  import opened HeapShape
  import opened Scripts
  import opened Shapes
  import R = RmList
  import BalancedTree
  import ComputeNode

  lemma {:induction false} SkipBound(w: seq<Option<Word>>, p: nat, k: nat)
    requires p <= |w|
    ensures p <= Skip(w, p, k) <= |w|
    decreases |w| - p
  {
    if k > 0 && p < |w| {
      SkipBound(w, p + 1, if w[p] == None then k - 1 else k);
    }
  }

  // The loop that steps over the NULLs of the commands already done.
  method FindStart(sc: Script) returns (p: nat)
    ensures p == Start(sc)
  {
    p := 0;
    var cmdIt := 0;
    while cmdIt < sc.now && p < |sc.words|
      invariant p <= |sc.words| && cmdIt <= sc.now
      invariant Skip(sc.words, p, sc.now - cmdIt) == Start(sc)
      decreases |sc.words| - p
    {
      if sc.words[p] == None {
        cmdIt := cmdIt + 1;
      }
      p := p + 1;
    }
  }

  lemma {:induction false} MatchingAt(scripts: seq<Script>, cmd: Command, id: int, i: nat)
    requires i <= |scripts| && (forall j :: 0 <= j < i ==> !StandsAt(scripts[j], cmd, id))
    requires i < |scripts| ==> StandsAt(scripts[i], cmd, id)
    ensures Matching(scripts, cmd, id) == i
  {
    if i > 0 {
      assert !StandsAt(scripts[0], cmd, id);
      MatchingAt(scripts[1..], cmd, id, i - 1);
    }
  }

  // Every command the script has left can be read.
  ghost predicate Readable(sc: Script) {
    sc.now < sc.number && forall s :: sc.now <= s < sc.number ==> Connecting(Decode(sc.(now := s)))
  }

  ghost predicate Connecting(r: Option<Request>) {
    r.Some? && ComputeNode.Connectable(r.value)
  }

  // The words of the current command, as the request they stand for.
  lemma ReadWords(sc: Script)
    requires Readable(sc)
    ensures var p, w, r := Start(sc), sc.words, Decode(sc);
            && p + 1 < |w| && r.Some? && w[p] == Some(Name(r.value.cmd)) && w[p + 1] == Num(r.value.id)
            && (r.value.cmd == Connect || r.value.cmd == Disconnect ==> r.value.id != -1)
            && StandsAt(sc, r.value.cmd, r.value.id)
            && if r.value.cmd == Connect then
                 && p + 4 < |w| && w[p + 2] == Num(r.value.parent)
                 && w[p + 3] == Some(Address(r.value.main)) && w[p + 4] == Some(Address(r.value.ping))
                 && r.value.main != 0 && r.value.ping != 0
               else r.value == Request(r.value.cmd, r.value.id, 0, 0, 0)
  {
    assert Connecting(Decode(sc.(now := sc.now)));
    assert sc.(now := sc.now) == sc;
  }

  lemma DropIs(scripts: seq<Script>, k: nat)
    requires k < |scripts|
    ensures R.Without(scripts, k) == Drop(scripts, k)
  {
  }

  // A script that can be read is found by its current command.
  lemma {:induction false} FoundIn(scripts: seq<Script>, sc: Script, cmd: Command, id: int)
    requires sc in scripts && StandsAt(sc, cmd, id)
    ensures Matching(scripts, cmd, id) < |scripts|
  {
    var i :| 0 <= i < |scripts| && scripts[i] == sc;
    assert Matching(scripts, cmd, id) <= i;
  }

  // Whether the script's current command is the one answered.
  method Waits(rs: Script, cmd: Command, id: int) returns (b: bool)
    requires Readable(rs)
    ensures b <==> StandsAt(rs, cmd, id)
  {
    ReadWords(rs);
    var p := FindStart(rs);
    b := rs.words[p] == Some(Name(cmd)) && rs.words[p + 1] == Num(id);
  }

  ghost predicate AllReadable(scripts: seq<Script>) {
    forall i {:trigger scripts[i]} :: 0 <= i < |scripts| ==> Readable(scripts[i])
  }

  class ControlNode {
    const self: int
    const tree: BalancedTree.BTree
    const node: ComputeNode.MqNode
    const list: R.RmList<Script>
    var counts: map<nat, int>
    var pings: map<int, int>
    var serial: nat
    var nextPort: int
    var out: seq<(int, Msg)>
    var log: seq<Report>

    ghost predicate Valid()
      reads this, tree, node, list
    {
      tree.Valid() && node.Valid() && list.Valid()
    }

    ghost function View(): Ctl
      requires Valid()
      reads this, tree, tree.buf, node, list
    {
      Ctl(self, tree.Contents(), node.Children(), list.Items(), counts, pings, serial, nextPort, out, log)
    }

    // What main sets up before it reads the first command; ports 5000 and 5001 are its own.
    constructor (self: int, barrier: R.Ptr)
      ensures Valid() && fresh(tree) && fresh(tree.buf) && fresh(node) && fresh(list)
      ensures View() == Ctl(self, [TreeNode(-1, self, 0, 0)], NO_CHILDREN, [], map[], map[], 0, 5002, [], [])
    {
      this.self := self;
      tree := new BalancedTree.BTree();
      node := new ComputeNode.MqNode();
      list := new R.RmList(barrier, Script(0, [], 0, 0));
      counts, pings, serial, nextPort, out, log := map[], map[], 0, 5002, [], [];
      new;
      var ok := tree.Add(TreeNode(-1, self, 0, 0));
    }

    method Say(r: Report)
      modifies this`log
      ensures log == old(log) + [r]
    {
      log := log + [r];
    }

    method AnswerCountPush(uuid: nat)
      requires Valid()
      modifies this`counts
      ensures counts == old(counts)[uuid := (tree.size + 1) / 2]
    {
      counts := counts[uuid := (tree.size + 1) / 2];
    }

    method SendRequest(req: Request)
      requires Valid()
      modifies this`counts, this`out, this`serial
      ensures Valid() && View() == Send(old(View()), req) && View().scripts == old(View()).scripts
    {
      hide R.Ring, R.Values, BalancedTree.PoolOk;
      AnswerCountPush(serial);
      out := node.PushAll(Msg(serial, req), out);
      serial := serial + 1;
    }

    method OwnDisconnect(id: int)
      requires Valid() && id != -1
      modifies node, this`serial
      ensures Valid() && View() == old(View()).(slots := Detach(old(View()).slots, id),
              serial := old(View()).serial + 1)
    {
      node.Close(id);
      serial := serial + 1;
    }

    method OwnPing()
      requires Valid()
      modifies this`serial
      ensures Valid() && View() == old(View()).(serial := old(View()).serial + 1)
    {
      serial := serial + 1;
    }

    method OwnConnect(id: int, main: int, ping: int)
      requires Valid() && id != -1 && main != 0 && ping != 0
      modifies node, this`serial
      ensures Valid()
      ensures View() == old(View()).(slots := Attach(old(View()).slots, Peer(id, main, ping)),
              serial := old(View()).serial + 1)
    {
      node.Connect(id, main, ping);
      serial := serial + 1;
    }

    // The search through the list of pending removals, up to the first that waits for this answer.
    static method Scan(list: R.RmList<Script>, cmd: Command, id: int)
        returns (it: R.Iter, ghost k: nat, found: bool, rs: Script)
      requires list.Valid() && AllReadable(list.Items())
      ensures k == Matching(list.Items(), cmd, id) && list.Stands(it, Matching(list.Items(), cmd, id))
      ensures found <==> Matching(list.Items(), cmd, id) < |list.Items()|
      ensures found ==> rs == list.Items()[Matching(list.Items(), cmd, id)]
    {
      hide R.Ring, R.Values, StandsAt, Readable, Matching;
      ghost var items := list.Items();
      it := list.Begin();
      var end := list.End();
      k := 0;
      found := false;
      rs := Script(0, [], 0, 0);
      var more := list.Equal(it, end);
      while !more && !found
        invariant items == list.Items() && k <= |items| && list.Stands(it, k) && list.Stands(end, |items|)
        invariant (more <==> it == end) && forall j :: 0 <= j < k ==> !StandsAt(items[j], cmd, id)
        invariant found ==> k < |items| && rs == items[k] && StandsAt(rs, cmd, id)
        decreases |items| - k, !found
      {
        rs := list.Get(it, k);
        found := Waits(rs, cmd, id);
        if !found {
          it := list.MoveNext(it, k);
          k := k + 1;
          more := list.Equal(it, end);
        }
      }
      if !found {
        list.StandsOnce(it, k, |items|);
      }
      MatchingAt(items, cmd, id, k);
    }

    method FindScript(cmd: Command, id: int) returns (it: R.Iter, ghost k: nat, found: bool, rs: Script)
      requires Valid() && AllReadable(View().scripts)
      ensures k == Matching(View().scripts, cmd, id) && list.Stands(it, Matching(View().scripts, cmd, id))
      ensures found <==> Matching(View().scripts, cmd, id) < |View().scripts|
      ensures found ==> rs == View().scripts[Matching(View().scripts, cmd, id)]
    {
      hide R.Ring, R.Values, BalancedTree.PoolOk, AllReadable, Matching;
      it, k, found, rs := Scan(list, cmd, id);
    }

    method Advance(it: R.Iter, ghost k: nat, sc: Script)
      requires Valid() && list.Stands(it, k) && k < |View().scripts|
      modifies list
      ensures Valid() && View() == old(View()).(scripts := old(View()).scripts[k := sc]) && list.Stands(it, k)
    {
      list.Set(it, sc, k);
    }

    method GiveUp(it: R.Iter, ghost k: nat, cmd: Command, id: int)
      requires Valid() && list.Stands(it, k) && k < |View().scripts|
      modifies list, this`log
      ensures Valid()
      ensures View() == Controller.Say(old(View()).(scripts := Drop(old(View()).scripts, k)), RemoveFailed(cmd, id))
    {
      hide R.Ring, R.Values, BalancedTree.PoolOk, R.Without, Drop;
      DropIs(list.Items(), k);
      var it' := list.Remove(it, k);
      Say(RemoveFailed(cmd, id));
    }

    method Complete(it: R.Iter, ghost k: nat, target: int)
      requires Valid() && list.Stands(it, k) && k < |View().scripts| && |View().tree| > 0
      modifies list, this`log, this`pings, tree`size, tree.buf
      ensures Valid() && tree.buf == old(tree.buf)
      ensures View() == Controller.Say(old(View()).(scripts := Drop(old(View()).scripts, k),
              pings := old(View()).pings - {target},
                                                    tree := Removed(old(View()).tree, target)), RemoveOk)
    {
      hide R.Ring, R.Values, BalancedTree.PoolOk, BalancedTree.Added, R.Woven, Removed, R.Without, Drop;
      DropIs(list.Items(), k);
      var it' := list.Remove(it, k);
      pings := pings - {target};
      var last := tree.Remove(target);
      Say(RemoveOk);
    }

    // rec_remove and push_next_remove call each other until a request has to go out or the script ends.
    method PushNextRemove(sc: Script)
      requires Valid() && AllReadable(View().scripts) && Readable(sc) && sc in View().scripts && |View().tree| > 0
      modifies this, tree`size, tree.buf, node, list
      ensures Valid() && AllReadable(View().scripts) && tree.buf == old(tree.buf)
      ensures View() == PushNext(old(View()), sc)
      decreases TotalLeft(View().scripts), 1
    {
      hide Valid, View, Readable, Decode, StandsAt, Start, TotalLeft, AllReadable, RecRemove, Attach, Detach, Send;
      ReadWords(sc);
      var p := FindStart(sc);
      var cmd := sc.words[p].value.cmd;
      var id := sc.words[p + 1].value.n;
      FoundIn(View().scripts, sc, cmd, id);
      var mine := OwnsChild(id);
      if cmd == Disconnect && mine {
        OwnDisconnect(id);
        RecRemoveAnswer(cmd, id, Ok, 0);
      } else if cmd == Connect && sc.words[p + 2].value.n == -1 {
        OwnConnect(id, sc.words[p + 3].value.port, sc.words[p + 4].value.port);
        RecRemoveAnswer(cmd, id, Ok, 0);
      } else if cmd == Connect {
        SendRequest(Request(cmd, id, sc.words[p + 2].value.n, sc.words[p + 3].value.port, sc.words[p + 4].value.port));
      } else if cmd == Ping && id == -1 {
        OwnPing();
        RecRemoveAnswer(cmd, id, Ok, 0);
      } else {
        SendRequest(Request(cmd, id, 0, 0, 0));
      }
    }

    method OwnsChild(id: int) returns (mine: bool)
      requires Valid()
      ensures mine <==> View().slots.left.id == id || View().slots.right.id == id
    {
      mine := node.leftId == id || node.rightId == id;
    }

    method RecRemoveAnswer(cmd: Command, id: int, code: Code, count: int)
      requires Valid() && AllReadable(View().scripts) && |View().tree| > 0
      requires (code == NotFound && count > 0) || Matching(View().scripts, cmd, id) < |View().scripts|
      requires code == NotFound ==> count >= 0
      modifies this, tree`size, tree.buf, node, list
      ensures Valid() && AllReadable(View().scripts) && tree.buf == old(tree.buf)
      ensures View() == RecRemove(old(View()), cmd, id, code, count)
      decreases TotalLeft(View().scripts), 0
    {
      hide Valid, StandsAt, TotalLeft, AllReadable, PushNext, Drop, View, Removed, RecRemove;
      if code == NotFound && count > 0 {
        OnlyCounts(View(), cmd, id, count);
        return;
      }
      ghost var items := View().scripts;
      var it, k, found, rs := FindScript(cmd, id);
      var sc := rs.(now := rs.now + 1);
      TotalLeftUpdate(items, k, sc);
      ReadableKept(items, k, sc);
      RecRemoveBranches(View(), cmd, id, code, count);
      Advance(it, k, sc);
      if (code == NotFound && count == 0) || code == Custom {
        GiveUp(it, k, cmd, id);
      } else if code == Ok {
        if sc.now >= sc.number {
          Complete(it, k, sc.target);
        } else {
          assert items[k := sc][k] == sc;
          PushNextRemove(sc);
        }
      }
    }

    // ---- Creating ----

    method RecCreateAnswer(id: int, code: Code, count: int)
      requires Valid() && |View().tree| > 0
      modifies this`log, this`pings, tree`size, tree.buf
      ensures Valid() && tree.buf == old(tree.buf)
      ensures View() == RecCreate(old(View()), id, code, count)
    {
      hide R.Ring, R.Values, BalancedTree.PoolOk, Removed;
      if code == NotFound {
        if count == 0 {
          Say(CreateNotFound(id));
        }
        return;
      }
      var created := tree.Find(id);
      if code == Custom {
        Say(CreateFailed);
        var last := tree.Remove(id);
      } else {
        pings := pings[id := 0];
        Say(CreateOk(created.pid));
      }
    }

    method PushCreateTo(id: int, parent: int, main: int, ping: int)
      requires Valid() && |View().tree| > 0 && id != -1 && main != 0 && ping != 0
      modifies this, tree`size, tree.buf, node
      ensures Valid() && tree.buf == old(tree.buf)
      ensures View() == PushCreate(old(View()), id, parent, main, ping)
    {
      hide Valid, View, Send, Attach, RecCreate;
      if parent == -1 {
        OwnConnect(id, main, ping);
        RecCreateAnswer(id, Ok, 0);
      } else {
        SendRequest(Request(Create, id, parent, main, ping));
      }
    }

    method ListNode(id: int, pid: int) returns (main: int, ping: int)
      requires Valid()
      modifies this`nextPort, this`serial, tree, tree.buf
      ensures Valid() && main == old(View()).nextPort && ping == main + 1
              && (tree.buf == old(tree.buf) || fresh(tree.buf))
      ensures View() == old(View()).(tree := old(View()).tree + [TreeNode(id, pid, main, ping)],
                                     nextPort := old(View()).nextPort + 2, serial := old(View()).serial + 1)
    {
      hide R.Ring, R.Values, BalancedTree.PoolOk, BalancedTree.Added;
      main, ping := nextPort, nextPort + 1;
      nextPort := nextPort + 2;
      serial := serial + 1;
      var ok := tree.Add(TreeNode(id, pid, main, ping));
    }

    // `pid` is what fork has returned in the parent.
    method CreateNode(id: int, pid: int)
      requires Valid() && |View().tree| > 0 && View().nextPort > 0 && View().tree[0].id == -1
               && View().tree[0].pid != -1
      modifies this, tree, tree.buf, node
      ensures Valid() && (tree.buf == old(tree.buf) || fresh(tree.buf))
      ensures View() == CmdCreate(old(View()), id, pid)
    {
      hide Valid, View, PushCreate;
      var known := FindNode(id);
      if known.pid != -1 {
        SayMore(ErrExists);
        return;
      }
      FirstIsFound(View().tree);
      var main, ping := ListNode(id, pid);
      var parent := LastParent();
      PushCreateTo(id, parent.id, main, ping);
    }

    method FindNode(id: int) returns (n: TreeNode)
      requires Valid()
      ensures n == Find(View().tree, id)
    {
      n := tree.Find(id);
    }

    method LastParent() returns (n: TreeNode)
      requires Valid() && |View().tree| >= 2
      ensures n == View().tree[(|View().tree| - 2) / 2]
    {
      n := tree.LastElemParent();
    }

    method SayMore(r: Report)
      requires Valid()
      modifies this`log
      ensures Valid() && View() == Controller.Say(old(View()), r)
    {
      Say(r);
    }

    // ---- Removing ----

    // The script cmd_remove builds from the array.
    method BuildScript(id: int) returns (sc: Script)
      requires Valid() && |View().tree| > 0
      ensures sc == ScriptFor(View().tree, id)
    {
      hide R.Ring, R.Values, BalancedTree.PoolOk, LongWords, ShortWords, LeftOf, RightOf, ParentOf, Find;
      var removed := tree.Find(id);
      var last := tree.LastElem();
      var left := tree.GetLeft(id);
      var right := tree.GetRight(id);
      var parent := tree.GetParent(id);
      if last.id == removed.id {
        sc := Script(removed.id, ShortWords(removed.id), 2, 0);
      } else {
        var number := 5;
        if left.id != last.id && left.id != -1 {
          number := number + 1;
        }
        if right.id != last.id && right.id != -1 {
          number := number + 1;
        }
        sc := Script(removed.id, LongWords(removed.id, last, parent, left, right), number, 0);
      }
    }

    method ListScript(sc: Script, el: R.Ptr)
      requires Valid() && el !in list.mem
      modifies list
      ensures Valid() && View() == old(View()).(scripts := [sc] + old(View()).scripts)
    {
      hide R.Ring, R.Values, BalancedTree.PoolOk;
      var it := list.Begin();
      it := list.InsertBefore(it, sc, el, 0);
    }

    // `el` is the cell malloc has returned for the new entry of the list.
    method RemoveNode(id: int, el: R.Ptr)
      requires Valid() && TreeOk(View().tree, View().self, View().nextPort) && AllReadable(View().scripts)
               && el !in list.mem
      modifies this, tree`size, tree.buf, node, list
      ensures Valid() && AllReadable(View().scripts) && tree.buf == old(tree.buf)
      ensures View() == CmdRemove(old(View()), id)
    {
      hide Valid, View, PushNext, ScriptFor, Readable;
      var known := FindNode(id);
      if known.pid == -1 {
        SayMore(ErrNotFound);
        return;
      } else if known.pid == self {
        SelfIs();
        SayMore(ErrControl);
        return;
      }
      SelfIs();
      var sc := BuildScript(id);
      ScriptReadable(View().tree, View().self, View().nextPort, id);
      ListScript(sc, el);
      PushNextRemove(sc);
    }

    lemma SelfIs()
      requires Valid()
      ensures View().self == self
    {
    }

    // ---- Executing and receiving ----

    method ExecNode(id: int)
      requires Valid()
      modifies this`counts, this`out, this`serial, this`log
      ensures Valid() && View() == CmdExec(old(View()), id)
    {
      hide Valid, View, Send;
      var known := FindNode(id);
      SelfIs();
      if known.pid == -1 {
        SayMore(ErrNotFound);
      } else if known.pid == self {
        SayMore(ErrControl);
      } else {
        SendRequest(Request(Exec, id, 0, 0, 0));
      }
    }

    method RecExecAnswer(id: int, code: Code, count: int)
      requires Valid()
      modifies this`log
      ensures Valid() && View() == RecExec(old(View()), id, code, count)
    {
      hide Valid, View;
      if (code == NotFound && count == 0) || code == Custom {
        SayMore(if code == NotFound then ExecNotFound(id) else ExecError(id));
      } else if code == Ok {
        SayMore(ExecOk(id));
      }
    }

    method Dispatch(m: Reply, count: int)
      requires Valid() && AllReadable(View().scripts) && |View().tree| > 0 && count >= 0
      requires Expected(View().scripts, m, count)
      modifies this, tree`size, tree.buf, node, list
      ensures Valid() && AllReadable(View().scripts) && tree.buf == old(tree.buf)
      ensures View() == match m.cmd
                        case Create => RecCreate(old(View()), m.id, m.code, count)
                        case Exec => RecExec(old(View()), m.id, m.code, count)
                        case Remove | Ping | Connect | Disconnect => RecRemove(old(View()), m.cmd, m.id, m.code, count)
    {
      hide Valid, View, RecRemove, Removed;
      match m.cmd
      case Create => RecCreateAnswer(m.id, m.code, count);
      case Exec => RecExecAnswer(m.id, m.code, count);
      case Remove | Ping | Connect | Disconnect => RecRemoveAnswer(m.cmd, m.id, m.code, count);
    }

    method SetCounts(c: map<nat, int>)
      requires Valid()
      modifies this`counts
      ensures Valid() && View() == old(View()).(counts := c)
    {
      counts := c;
    }

    method CountsNow() returns (c: map<nat, int>)
      requires Valid()
      ensures c == View().counts
    {
      c := counts;
    }

    method Receive(m: Reply)
      requires Valid() && AllReadable(View().scripts) && |View().tree| > 0
      requires m.uuid in View().counts ==>
                 View().counts[m.uuid] > 0 && Expected(View().scripts, m, View().counts[m.uuid] - 1)
      modifies this, tree`size, tree.buf, node, list
      ensures Valid() && AllReadable(View().scripts) && tree.buf == old(tree.buf)
      ensures View() == ReceiveProcess(old(View()), m)
    {
      hide Valid, View, RecRemove, RecCreate, RecExec, AllReadable;
      var now := CountsNow();
      if m.uuid !in now {
        return;
      }
      var count := now[m.uuid] - 1;
      SetCounts(now[m.uuid := count]);
      Dispatch(m, count);
      if (m.code == NotFound && count == 0) || m.code == Custom || m.code == Ok {
        now := CountsNow();
        SetCounts(now - {m.uuid});
      }
    }
  }

  // A script waits for this answer, unless it only counts.
  ghost predicate Expected(scripts: seq<Script>, m: Reply, count: int) {
    (m.cmd.Remove? || m.cmd.Ping? || m.cmd.Connect? || m.cmd.Disconnect?) && !(m.code == NotFound && count > 0) ==>
      Matching(scripts, m.cmd, m.id) < |scripts|
  }

  lemma FirstIsFound(t: seq<TreeNode>)
    requires |t| > 0 && t[0].id == -1
    ensures Find(t, -1) == t[0]
  {
  }

  // What cmd_remove puts into the array can be read back to the end.
  lemma ScriptReadable(t: seq<TreeNode>, self: int, nextPort: int, id: int)
    requires TreeOk(t, self, nextPort) && Find(t, id).pid != -1 && Find(t, id).pid != self
    ensures Readable(ScriptFor(t, id))
  {
    var k := IndexOf(t, id);
    assert t[k].id == id && k > 0;
    var sc, c := ScriptFor(t, t[k].id), Layout(t);
    TreeLayout(t, self, nextPort);
    forall s | 0 <= s < StepCount(c, k)
      ensures Connecting(Decode(sc.(now := s)))
    {
      ScriptHoldsSteps(t, self, nextPort, k, s);
      StepConnects(c, k, s);
    }
    ScriptHoldsSteps(t, self, nextPort, k, 0);
  }

  lemma StepConnects(c: seq<Peer>, k: nat, s: nat)
    requires GoodLayout(c) && 0 < k < |c| && s < StepCount(c, k) && forall i :: 0 < i < |c| ==> c[i].ping != 0
    ensures Connecting(Some(StepRound(c, k, s).req))
  {
  }

  lemma {:induction false} OnlyCounts(c: Ctl, cmd: Command, id: int, count: int)
    requires count > 0
    ensures RecRemove(c, cmd, id, NotFound, count) == c
  {
  }

  // rec_remove, branch by branch.
  lemma {:induction false} RecRemoveBranches(c: Ctl, cmd: Command, id: int, code: Code, count: int)
    requires Matching(c.scripts, cmd, id) < |c.scripts| && (code == NotFound ==> count == 0) && |c.tree| > 0
    ensures var i := Matching(c.scripts, cmd, id);
            var sc := c.scripts[i].(now := c.scripts[i].now + 1);
            RecRemove(c, cmd, id, code, count)
            == if code != Ok then Controller.Say(c.(scripts := Drop(c.scripts, i)), RemoveFailed(cmd, id))
               else if sc.now >= sc.number then
                 Controller.Say(c.(scripts := Drop(c.scripts, i), pings := c.pings - {sc.target},
                   tree := Removed(c.tree, sc.target)),
                                RemoveOk)
               else PushNext(c.(scripts := c.scripts[i := sc]), sc)
  {
    hide PushNext, Removed, Drop, Matching;
  }

  lemma ReadableKept(scripts: seq<Script>, k: nat, sc: Script)
    requires AllReadable(scripts) && k < |scripts| && sc == scripts[k].(now := scripts[k].now + 1)
    ensures AllReadable(Drop(scripts, k)) && Drop(scripts[k := sc], k) == Drop(scripts, k)
    ensures sc.now < sc.number ==> Readable(sc) && AllReadable(scripts[k := sc])
    ensures Left(sc) < Left(scripts[k])
  {
    assert Readable(scripts[k]);
    forall s | sc.now <= s < sc.number
      ensures Connecting(Decode(sc.(now := s)))
    {
      assert sc.(now := s) == scripts[k].(now := s);
    }
  }
}
