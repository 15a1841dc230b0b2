// What the reports of execs say: each repeats the answer of the one process that carried the exec out.
module ExecAnswers {
  import opened Overlay
  import opened Flood
  import opened Answers
  import opened Counting
  import opened TreeArray
  import opened Controller
  import opened TreeSystem
  import opened TreeLedger
  import opened TreeRuns
  import opened TreeTheorems

  // How the controller reports that node id has carried an exec out, well or with an error of its own.
  function ExecReport(id: int, custom: bool): Report { if custom then ExecError(id) else ExecOk(id) }

  // The nodes that carried an exec out, and whether with an error of their own.
  type Served = multiset<(int, bool)>

  // A step carries an exec out if a process takes one that names it out of its inbox.
  function ServedBy(s: Sys, a: Action): Served
    requires Enabled(s, a)
  {
    if a.Process? && s.queues[a.x][0].req.cmd == Exec && s.queues[a.x][0].req.id == s.net[a.x].self.id then
      multiset{(s.net[a.x].self.id, a.custom)}
    else multiset{}
  }

  function ServedIn(s: Sys, acts: seq<Action>): Served
    requires Runnable(s, acts)
    decreases |acts|
  {
    if acts == [] then multiset{} else ServedBy(s, acts[0]) + ServedIn(Apply(s, acts[0]), acts[1..])
  }

  // A good or bad answer of node id to an exec.
  predicate Tells(m: Reply, id: int, custom: bool) {
    m.cmd == Exec && m.id == id && m.code == if custom then Custom else Ok
  }

  // Its answers that have not reached the controller yet.
  function OnTheWay(replies: set<Reply>, id: int, custom: bool): set<Reply> {
    set m | m in replies && Tells(m, id, custom)
  }

  function Said(log: seq<Report>, id: int, custom: bool): nat { multiset(log)[ExecReport(id, custom)] }

  // Reports and answers on their way together are the execs carried out, node by node, the ones that
  // went well and the others.
  ghost predicate Balanced(s: Sys, served: Served) {
    forall id, custom {:trigger Said(s.ctl.log, id, custom)} ::
      Said(s.ctl.log, id, custom) + |OnTheWay(s.replies, id, custom)| == served[(id, custom)]
  }

  // ... at every moment of a run.
  ghost predicate AlwaysBalanced(s: Sys, acts: seq<Action>, served: Served)
    requires Runnable(s, acts)
    decreases |acts|
  {
    Balanced(s, served)
    && (acts == [] || AlwaysBalanced(Apply(s, acts[0]), acts[1..], served + ServedBy(s, acts[0])))
  }

  // ---- The controller reports no exec on its own ----

  predicate OtherReport(r: Report) { !r.ExecOk? && !r.ExecError? }

  ghost predicate SaysSame(log: seq<Report>, log': seq<Report>) {
    forall id, custom {:trigger Said(log', id, custom)} :: Said(log', id, custom) == Said(log, id, custom)
  }

  // No script and no message that leaves speaks of an exec.
  ghost predicate NoExecs(c: Ctl) {
    && (forall i :: 0 <= i < |c.scripts| ==> NoExecWords(c.scripts[i]))
    && (forall i :: 0 <= i < |c.out| ==> c.out[i].1.req.cmd != Exec)
  }

  predicate NoExecWords(sc: Script) { Some(Name(Exec)) !in sc.words }

  ghost predicate Leads(c: Ctl, c': Ctl) {
    NoExecs(c') && SaysSame(c.log, c'.log) && c.counts.Keys <= c'.counts.Keys && c.serial <= c'.serial
  }

  lemma SayNothing(log: seq<Report>)
    ensures SaysSame(log, log)
  {
  }

  lemma SayOther(log: seq<Report>, r: Report)
    requires OtherReport(r)
    ensures SaysSame(log, log + [r])
  {
  }

  lemma SayExec(log: seq<Report>, id: int, custom: bool, id': int, custom': bool)
    ensures Said(log + [ExecReport(id, custom)], id', custom')
            == Said(log, id', custom') + if id == id' && custom == custom' then 1 else 0
  {
  }

  lemma DecodeNoExec(sc: Script)
    requires NoExecWords(sc) && Decode(sc).Some?
    ensures Decode(sc).value.cmd != Exec
  {
  }

  lemma SendLeads(c: Ctl, req: Request)
    requires NoExecs(c) && req.cmd != Exec
    ensures Leads(c, Send(c, req))
  {
  }

  ghost predicate Alike(c: Ctl, c': Ctl) { c'.scripts == c.scripts && c'.out == c.out }

  // Advancing a script or dropping one brings no exec in, nor does a change of anything else.
  lemma OthersNoExec(c: Ctl)
    requires NoExecs(c)
    ensures forall c': Ctl {:trigger NoExecs(c')} :: Alike(c, c') ==> NoExecs(c')
  {
  }

  lemma ScriptsNoExec(c: Ctl, i: nat, sc: Script)
    requires NoExecs(c) && i < |c.scripts| && sc.words == c.scripts[i].words
    ensures NoExecWords(sc) && NoExecs(c.(scripts := c.scripts[i := sc])) && NoExecs(c.(scripts := Drop(c.scripts, i)))
  {
  }

  lemma {:induction false} RecRemoveLeads(c: Ctl, cmd: Command, id: int, code: Code, count: int)
    requires NoExecs(c)
    ensures Leads(c, RecRemove(c, cmd, id, code, count))
    decreases TotalLeft(c.scripts), 0
  {
    hide SaysSame, Said, PushNext, StandsAt, Removed, NoExecs, NoExecWords;
    var i := Matching(c.scripts, cmd, id);
    OthersNoExec(c);
    SayNothing(c.log);
    SayOther(c.log, Broken);
    SayOther(c.log, RemoveOk);
    SayOther(c.log, RemoveFailed(cmd, id));
    if i < |c.scripts| {
      var sc := c.scripts[i].(now := c.scripts[i].now + 1);
      TotalLeftUpdate(c.scripts, i, sc);
      ScriptsNoExec(c, i, sc);
      OthersNoExec(c.(scripts := Drop(c.scripts, i)));
      if code == Ok && sc.now < sc.number {
        PushNextLeads(c.(scripts := c.scripts[i := sc]), sc);
      }
    }
  }

  lemma {:induction false} PushNextLeads(c: Ctl, sc: Script)
    requires NoExecs(c) && NoExecWords(sc)
    ensures Leads(c, PushNext(c, sc))
    decreases TotalLeft(c.scripts), 1
  {
    SayOther(c.log, Broken);
    if Decode(sc).Some? {
      var req := Decode(sc).value;
      DecodeNoExec(sc);
      SendLeads(c, req);
      if req.cmd == Disconnect {
        RecRemoveLeads(c.(slots := Detach(c.slots, req.id), serial := c.serial + 1), Disconnect, req.id, Ok, 0);
      } else if req.cmd == Connect {
        RecRemoveLeads(c.(slots := Attach(c.slots, Peer(req.id, req.main, req.ping)), serial := c.serial + 1),
                       Connect, req.id, Ok, 0);
      } else if req.cmd == Ping {
        RecRemoveLeads(c.(serial := c.serial + 1), Ping, req.id, Ok, 0);
      }
    }
  }

  lemma CreateLeads(c: Ctl, id: int, pid: int)
    requires NoExecs(c)
    ensures Leads(c, CmdCreate(c, id, pid))
  {
    hide Find;
    SayOther(c.log, ErrExists);
    SayOther(c.log, Broken);
    var c1 := CmdCreate(c, id, pid);
    SayOther(c.log, CreateOk(Find(c.tree + [TreeNode(id, pid, c.nextPort, c.nextPort + 1)], id).pid));
  }

  lemma ScriptNoExec(t: seq<TreeNode>, id: int)
    requires |t| > 0
    ensures NoExecWords(ScriptFor(t, id))
  {
    hide Find, LeftOf, RightOf, ParentOf;
  }

  lemma RemoveLeads(c: Ctl, id: int)
    requires NoExecs(c)
    ensures Leads(c, CmdRemove(c, id))
  {
    hide ScriptFor, PushNext, Find;
    SayOther(c.log, ErrNotFound);
    SayOther(c.log, ErrControl);
    SayOther(c.log, Broken);
    if |c.tree| > 0 {
      var sc := ScriptFor(c.tree, id);
      ScriptNoExec(c.tree, id);
      PushNextLeads(c.(scripts := [sc] + c.scripts), sc);
    }
  }

  // ---- Every exec on its way is one the user asked for ----

  ghost predicate QueuesMarked(qs: Queues, execs: set<nat>) {
    forall x, j :: x in qs && 0 <= j < |qs[x]| && qs[x][j].req.cmd == Exec ==> qs[x][j].uuid in execs
  }

  ghost predicate RepliesMarked(replies: set<Reply>, execs: set<nat>) {
    forall m :: m in replies && m.cmd == Exec ==> m.uuid in execs
  }

  ghost predicate OutMarked(out: seq<(int, Msg)>, execs: set<nat>) {
    forall i :: 0 <= i < |out| && out[i].1.req.cmd == Exec ==> out[i].1.uuid in execs
  }

  // An exec that is not open any more has drawn the answer of its node.
  ghost predicate ClosedByAnswer(s: Sys, all: set<Reply>, r: nat) {
    exists m :: m in all - s.replies && m.uuid == r && m.code != NotFound
  }

  ghost predicate ExecsTraced(s: Sys, all: set<Reply>) {
    && NoExecs(s.ctl) && QueuesMarked(s.queues, s.execs) && RepliesMarked(s.replies, s.execs)
    && (forall r :: r in s.execs && r !in s.ctl.counts ==> ClosedByAnswer(s, all, r))
  }

  lemma {:induction false} PushOutMarked(qs: Queues, out: seq<(int, Msg)>, execs: set<nat>)
    requires QueuesMarked(qs, execs) && OutMarked(out, execs)
    ensures QueuesMarked(PushOut(qs, out), execs)
    decreases |out|
  {
    if out != [] {
      PushMarked(qs, out[0].0, out[0].1, execs);
      PushOutMarked(Push(qs, out[0].0, out[0].1), out[1..], execs);
    }
  }

  lemma PushMarked(qs: Queues, port: int, m: Msg, execs: set<nat>)
    requires QueuesMarked(qs, execs) && (m.req.cmd == Exec ==> m.uuid in execs)
    ensures QueuesMarked(Push(qs, port, m), execs)
  {
  }

  // What a process hands on, and what it answers.
  lemma DeliverMarked(net: Net, qs: Queues, x: int, custom: bool, execs: set<nat>)
    requires x in net && x in qs && qs[x] != [] && QueuesMarked(qs, execs)
    ensures var d := Deliver(net, qs, x, custom);
            && QueuesMarked(d.queues, execs)
            && (d.reply.Some? && d.reply.value.cmd == Exec ==> d.reply.value.uuid in execs)
  {
    var m, s := qs[x][0], net[x].slots;
    var rest := qs[x := qs[x][1..]];
    assert QueuesMarked(rest, execs);
    PushMarked(rest, s.left.main, m, execs);
    PushMarked(Push(rest, s.left.main, m), s.right.main, m, execs);
  }

  // A process that answers an exec for good is the one it names, and answers as it is itself.
  lemma ReplyServes(s: Sys, x: int, custom: bool, id: int, flag: bool)
    requires Enabled(s, Process(x, custom))
    ensures var d := Deliver(s.net, s.queues, x, custom);
            ServedBy(s, Process(x, custom))[(id, flag)]
            == if d.reply.Some? && Tells(d.reply.value, id, flag) then 1 else 0
  {
  }

  lemma OneMoreOnTheWay(replies: set<Reply>, m: Reply, id: int, flag: bool)
    requires m !in replies
    ensures |OnTheWay(replies + {m}, id, flag)| == |OnTheWay(replies, id, flag)| + if Tells(m, id, flag) then 1 else 0
  {
    var before, after := OnTheWay(replies, id, flag), OnTheWay(replies + {m}, id, flag);
    if m in after {
      assert after == before + {m};
    } else {
      assert after == before;
    }
  }

  lemma DeliverServes(s: Sys, x: int, custom: bool, id: int, flag: bool)
    requires Enabled(s, Process(x, custom))
    requires var d := Deliver(s.net, s.queues, x, custom); d.reply.Some? ==> d.reply.value !in s.replies
    ensures var a, d := Process(x, custom), Deliver(s.net, s.queues, x, custom);
            |OnTheWay(AllAfter(s.replies, d), id, flag)| == |OnTheWay(s.replies, id, flag)| + ServedBy(s, a)[(id, flag)]
  {
    hide Deliver, ServedBy, Tells, OnTheWay;
    var d := Deliver(s.net, s.queues, x, custom);
    ReplyServes(s, x, custom, id, flag);
    if d.reply.Some? {
      OneMoreOnTheWay(s.replies, d.reply.value, id, flag);
    }
  }

  // ---- One step ----

  lemma MarkedMore(qs: Queues, execs: set<nat>, execs': set<nat>)
    requires QueuesMarked(qs, execs) && execs <= execs'
    ensures QueuesMarked(qs, execs')
  {
  }

  // What the controller has done is sent off.
  lemma Sent(s: Sys, c: Ctl, execs: set<nat>)
    requires QueuesMarked(s.queues, execs) && OutMarked(c.out, execs)
    ensures var s' := Emit(Spawn(s, c), c);
            s'.ctl == c.(out := []) && s'.replies == s.replies && s'.execs == s.execs && QueuesMarked(s'.queues, execs)
  {
    PushOutMarked(Spawn(s, c).queues, c.out, execs);
  }

  lemma CreateBalanced(s: Sys, all: set<Reply>, id: int, pid: int, served: Served)
    requires ExecsTraced(s, all) && Balanced(s, served) && s.ctl.out == []
    ensures var s' := Commanding(s, CreateNode(id, pid)); ExecsTraced(s', all) && Balanced(s', served)
  {
    hide CmdCreate, QueuesMarked, NoExecWords, Said, Find, OnTheWay;
    CreateLeads(s.ctl, id, pid);
    Sent(s, CmdCreate(s.ctl, id, pid), s.execs);
  }

  lemma RemoveBalanced(s: Sys, all: set<Reply>, id: int, served: Served)
    requires ExecsTraced(s, all) && Balanced(s, served) && s.ctl.out == []
    ensures var s' := Commanding(s, RemoveNode(id)); ExecsTraced(s', all) && Balanced(s', served)
  {
    hide CmdRemove, QueuesMarked, NoExecWords, Said, Find, OnTheWay;
    RemoveLeads(s.ctl, id);
    PushOutMarked(s.queues, CmdRemove(s.ctl, id).out, s.execs);
  }

  lemma ExecBalanced(s: Sys, all: set<Reply>, id: int, served: Served)
    requires ExecsTraced(s, all) && Balanced(s, served) && s.ctl.out == []
    ensures var s' := Commanding(s, ExecNode(id)); ExecsTraced(s', all) && Balanced(s', served)
  {
    hide QueuesMarked, NoExecWords, Said, Find, OnTheWay;
    SayNothing(s.ctl.log);
    SayOther(s.ctl.log, ErrNotFound);
    SayOther(s.ctl.log, ErrControl);
    var execs := Commanding(s, ExecNode(id)).execs;
    MarkedMore(s.queues, s.execs, execs);
    PushOutMarked(s.queues, CmdExec(s.ctl, id).out, execs);
  }

  lemma ReceivedOther(c: Ctl, m: Reply)
    requires NoExecs(c) && m.uuid in c.counts && m.cmd != Exec
    requires m.code == NotFound ==> c.counts[m.uuid] > 1
    ensures var c' := ReceiveProcess(c, m);
            NoExecs(c') && SaysSame(c.log, c'.log)
            && c.counts.Keys - (if m.code == NotFound then {} else {m.uuid}) <= c'.counts.Keys
  {
    hide RecRemove, Said, NoExecWords, Find, Removed;
    var count := c.counts[m.uuid] - 1;
    var c1 := c.(counts := c.counts[m.uuid := count]);
    OthersNoExec(c);
    SayNothing(c.log);
    SayOther(c.log, CreateFailed);
    SayOther(c.log, CreateOk(Find(c.tree, m.id).pid));
    RecRemoveLeads(c1, m.cmd, m.id, m.code, count);
  }

  // A request whose good or bad answer is still on its way is open.
  lemma FinalIsOpen(s: Sys, h: History, all: set<Reply>, m: Reply)
    requires RepliesSound(h, all) && s.replies <= all && ExecsTraced(s, all)
    requires m in s.replies && m.cmd == Exec && m.code != NotFound
    ensures m.uuid in s.ctl.counts
  {
    hide NoExecs, QueuesMarked;
    forall m' | m' in all && m'.uuid == m.uuid && m'.code != NotFound
      ensures m' in s.replies
    {
      OneAnswer(h, all, m, m');
    }
    assert !ClosedByAnswer(s, all, m.uuid);
  }

  lemma OneLessOnTheWay(replies: set<Reply>, m: Reply, id: int, flag: bool)
    requires m in replies
    ensures |OnTheWay(replies, id, flag)| == |OnTheWay(replies - {m}, id, flag)|
            + if Tells(m, id, flag) then 1 else 0
  {
    var before, after := OnTheWay(replies, id, flag), OnTheWay(replies - {m}, id, flag);
    if m in before {
      assert before == after + {m};
    } else {
      assert before == after;
    }
  }

  lemma CountsFinal(s: Sys, h: History, all: set<Reply>, m: Reply)
    requires Chain(h) && RepliesSound(h, all) && s.replies <= all && Opens(s, h, all)
    requires m in s.replies && m.uuid in s.ctl.counts && m.code == NotFound
    ensures s.ctl.counts[m.uuid] > 1
  {
    hide Chain, RepliesSound, OpenOk;
    assert OpenOk(h, all, s.replies, m.uuid, s.ctl.counts[m.uuid]);
    StillCounting(h, all, s.replies, m, s.ctl.counts[m.uuid]);
  }

  lemma ReceiptBalanced(s: Sys, h: History, all: set<Reply>, m: Reply, served: Served)
    requires Chain(h) && RepliesSound(h, all) && s.replies <= all && Opens(s, h, all) && s.ctl.out == []
    requires ExecsTraced(s, all) && Balanced(s, served) && m in s.replies
    ensures var s' := s.(ctl := ReceiveProcess(s.ctl, m), replies := s.replies - {m});
            (forall id, flag :: Said(s'.ctl.log, id, flag) + |OnTheWay(s'.replies, id, flag)| == served[(id, flag)])
            && NoExecs(s'.ctl) && RepliesMarked(s'.replies, s.execs)
            && (forall r :: r in s.execs && r !in s'.ctl.counts ==> ClosedByAnswer(s', all, r))
  {
    hide Chain, RepliesSound, Opens, QueuesMarked, NoExecs, ReceiveProcess, Said, OnTheWay;
    var c' := ReceiveProcess(s.ctl, m);
    forall id, flag
      ensures Said(c'.log, id, flag) + |OnTheWay(s.replies - {m}, id, flag)| == served[(id, flag)]
    {
      OneLessOnTheWay(s.replies, m, id, flag);
      ReceiptSays(s, h, all, m, id, flag);
    }
    ReceiptTraced(s, h, all, m);
  }

  // The controller counts an answer or is told by it; either way nothing is lost.
  lemma ReceiptSays(s: Sys, h: History, all: set<Reply>, m: Reply, id: int, flag: bool)
    requires Chain(h) && RepliesSound(h, all) && s.replies <= all && Opens(s, h, all)
    requires ExecsTraced(s, all) && m in s.replies
    ensures Said(ReceiveProcess(s.ctl, m).log, id, flag) == Said(s.ctl.log, id, flag)
            + if Tells(m, id, flag) then 1 else 0
  {
    hide Chain, RepliesSound, Opens, QueuesMarked, NoExecs, ReceiveProcess, Said, ClosedByAnswer;
    if m.cmd == Exec && m.code != NotFound {
      FinalIsOpen(s, h, all, m);
      ExecutedProcess(s.ctl, m);
      SayExec(s.ctl.log, m.id, m.code == Custom, id, flag);
    } else if m.uuid !in s.ctl.counts {
      IgnoredProcess(s.ctl, m);
    } else if m.cmd == Exec {
      CountsFinal(s, h, all, m);
      NotFoundOnlyCounts(s.ctl, m);
    } else {
      if m.code == NotFound {
        CountsFinal(s, h, all, m);
      }
      ReceivedOther(s.ctl, m);
    }
  }

  lemma IgnoredProcess(c: Ctl, m: Reply)
    requires m.uuid !in c.counts
    ensures ReceiveProcess(c, m) == c
  {
  }

  lemma ReceiptTraced(s: Sys, h: History, all: set<Reply>, m: Reply)
    requires Chain(h) && RepliesSound(h, all) && s.replies <= all && Opens(s, h, all)
    requires ExecsTraced(s, all) && m in s.replies
    ensures var s' := s.(ctl := ReceiveProcess(s.ctl, m), replies := s.replies - {m});
            NoExecs(s'.ctl) && RepliesMarked(s'.replies, s.execs)
            && (forall r :: r in s.execs && r !in s'.ctl.counts ==> ClosedByAnswer(s', all, r))
  {
    hide Chain, RepliesSound, Opens, QueuesMarked, NoExecs, ReceiveProcess, SaysSame;
    var c := s.ctl;
    var s' := s.(ctl := ReceiveProcess(c, m), replies := s.replies - {m});
    OthersNoExec(c);
    if m.uuid !in c.counts {
      IgnoredProcess(c, m);
    } else {
      if m.code == NotFound {
        CountsFinal(s, h, all, m);
        NotFoundOnlyCounts(c, m);
      } else if m.cmd == Exec {
        ExecutedProcess(c, m);
      } else {
        ReceivedOther(c, m);
      }
      assert c.counts.Keys - (if m.code == NotFound then {} else {m.uuid}) <= s'.ctl.counts.Keys;
    }
    forall r | r in s.execs && r !in s'.ctl.counts
      ensures ClosedByAnswer(s', all, r)
    {
      if r in c.counts {
        assert m in all - s'.replies;
      } else {
        var m' :| m' in all - s.replies && m'.uuid == r && m'.code != NotFound;
        assert m' in all - s'.replies;
      }
    }
  }

  lemma ReceiveBalanced(s: Sys, h: History, all: set<Reply>, m: Reply, served: Served)
    requires Chain(h) && RepliesSound(h, all) && s.replies <= all && Opens(s, h, all) && s.ctl.out == []
    requires ExecsTraced(s, all) && Balanced(s, served) && m in s.replies
    ensures var s' := Apply(s, Receive(m)); ExecsTraced(s', all) && Balanced(s', served)
  {
    hide Chain, RepliesSound, Opens, QueuesMarked, NoExecWords, ReceiveProcess, Said, OnTheWay, ClosedByAnswer;
    ReceiptBalanced(s, h, all, m, served);
    var c := ReceiveProcess(s.ctl, m);
    PushOutMarked(s.queues, c.out, s.execs);
    var s1, s' := s.(ctl := c, replies := s.replies - {m}), Apply(s, Receive(m));
    forall r | r in s'.execs && r !in s'.ctl.counts
      ensures ClosedByAnswer(s', all, r)
    {
      assert ClosedByAnswer(s1, all, r);
      SameClosed(s1, s', all, r);
    }
  }

  lemma SameClosed(s: Sys, s': Sys, all: set<Reply>, r: nat)
    requires ClosedByAnswer(s, all, r) && s'.replies == s.replies
    ensures ClosedByAnswer(s', all, r)
  {
  }

  lemma ProcessBalanced(s: Sys, all: set<Reply>, x: int, custom: bool, served: Served)
    requires Enabled(s, Process(x, custom)) && s.replies <= all && ExecsTraced(s, all) && Balanced(s, served)
    requires var d := Deliver(s.net, s.queues, x, custom); d.reply.Some? ==> d.reply.value !in all
    ensures var d, s' := Deliver(s.net, s.queues, x, custom), Apply(s, Process(x, custom));
            ExecsTraced(s', AllAfter(all, d)) && Balanced(s', served + ServedBy(s, Process(x, custom)))
  {
    hide Deliver, Said, OnTheWay, QueuesMarked, NoExecs, ServedBy;
    var d, s' := Deliver(s.net, s.queues, x, custom), Apply(s, Process(x, custom));
    DeliverMarked(s.net, s.queues, x, custom, s.execs);
    forall id, flag
      ensures Said(s'.ctl.log, id, flag) + |OnTheWay(s'.replies, id, flag)|
              == (served + ServedBy(s, Process(x, custom)))[(id, flag)]
    {
      DeliverServes(s, x, custom, id, flag);
      assert Said(s.ctl.log, id, flag) + |OnTheWay(s.replies, id, flag)| == served[(id, flag)];
    }
    forall r | r in s'.execs && r !in s'.ctl.counts
      ensures ClosedByAnswer(s', AllAfter(all, d), r)
    {
      var m :| m in all - s.replies && m.uuid == r && m.code != NotFound;
      assert m in AllAfter(all, d) - s'.replies;
    }
  }

  lemma InvParts(s: Sys, h: History, all: set<Reply>, ids: seq<int>, b: Book)
    requires SysInv(s, h, all, ids, b)
    ensures Chain(h) && RepliesSound(h, all) && s.replies <= all && Opens(s, h, all) && s.ctl.out == []
  {
  }

  lemma StepBalanced(s: Sys, h: History, all: set<Reply>, ids: seq<int>, b: Book, a: Action, served: Served)
    returns (h': History, all': set<Reply>, b': Book)
    requires SysInv(s, h, all, ids, b) && Enabled(s, a) && ExecsTraced(s, all) && Balanced(s, served)
    ensures var s' := Apply(s, a);
            SysInv(s', h', all', Meant(ids, a), b') && ExecsTraced(s', all') && Balanced(s', served + ServedBy(s, a))
  {
    hide SysInv, ExecsTraced, Balanced, Chain, RepliesSound, Opens, Deliver, Commanding, ReceiveProcess, Emit;
    InvParts(s, h, all, ids, b);
    match a
    case Process(x, custom) =>
      h', all' := ProcessKeeps(s, h, all, ids, b, x, custom);
      b' := b;
      ProcessBalanced(s, all, x, custom, served);
    case User(w) =>
      h', all', b' := StepKeeps(s, h, all, ids, b, a);
      assert served + ServedBy(s, a) == served;
      match w {
        case CreateNode(id, pid) => CreateBalanced(s, all, id, pid, served);
        case RemoveNode(id) => RemoveBalanced(s, all, id, served);
        case ExecNode(id) => ExecBalanced(s, all, id, served);
      }
    case Receive(m) =>
      h', all', b' := StepKeeps(s, h, all, ids, b, a);
      assert served + ServedBy(s, a) == served;
      ReceiveBalanced(s, h, all, m, served);
  }

  lemma {:induction false} RunBalanced(s: Sys, h: History, all: set<Reply>, ids: seq<int>, b: Book, acts: seq<Action>,
                                       served: Served)
    returns (h': History, all': set<Reply>, b': Book)
    requires SysInv(s, h, all, ids, b) && Runnable(s, acts) && ExecsTraced(s, all) && Balanced(s, served)
    ensures AlwaysBalanced(s, acts, served)
    ensures var s' := Run(s, acts);
            SysInv(s', h', all', Sequential(ids, acts), b') && ExecsTraced(s', all')
            && Balanced(s', served + ServedIn(s, acts))
    decreases |acts|
  {
    hide SysInv, ExecsTraced, Balanced, Apply, Enabled, Meant, ServedBy;
    h', all', b' := h, all, b;
    if acts == [] {
      assert served + ServedIn(s, acts) == served;
    } else {
      h', all', b' := StepBalanced(s, h, all, ids, b, acts[0], served);
      var more := served + ServedBy(s, acts[0]);
      h', all', b' := RunBalanced(Apply(s, acts[0]), h', all', Meant(ids, acts[0]), b', acts[1..], more);
      assert more + ServedIn(Apply(s, acts[0]), acts[1..]) == served + ServedIn(s, acts);
    }
  }

  lemma StartBalanced(self: int)
    ensures ExecsTraced(TreeTheorems.Start(self), {}) && Balanced(TreeTheorems.Start(self), multiset{})
  {
  }

  // ---- The theorems ----

  // In every run and at every moment of it: of each node, and of either kind, as many execs have been
  // carried out as reports have been made and answers are on their way.
  lemma {:induction false} ExecsAreAccountedFor(self: int, acts: seq<Action>)
    requires self != -1 && Runnable(TreeTheorems.Start(self), acts)
    ensures AlwaysBalanced(TreeTheorems.Start(self), acts, multiset{})
    ensures Balanced(Run(TreeTheorems.Start(self), acts), ServedIn(TreeTheorems.Start(self), acts))
  {
    hide SysInv, Run, Runnable, ServedIn;
    var h0 := StartKeeps(self);
    StartBalanced(self);
    var h, all, b := RunBalanced(TreeTheorems.Start(self), h0, {}, [-1], BLANK, acts, multiset{});
    assert multiset{} + ServedIn(TreeTheorems.Start(self), acts) == ServedIn(TreeTheorems.Start(self), acts);
  }

  // Once no command is open the reports are the answers, none lost and none made up.
  lemma {:induction false} ExecReportsAreAnswers(self: int, acts: seq<Action>, id: int, custom: bool)
    requires self != -1 && Runnable(TreeTheorems.Start(self), acts) && Free(Run(TreeTheorems.Start(self), acts).ctl)
    ensures var s0 := TreeTheorems.Start(self);
            Said(Run(s0, acts).ctl.log, id, custom) == ServedIn(s0, acts)[(id, custom)]
  {
    hide SysInv, Run, Runnable, ServedIn, Said, ExecsTraced;
    var h0 := StartKeeps(self);
    StartBalanced(self);
    var h, all, b := RunBalanced(TreeTheorems.Start(self), h0, {}, [-1], BLANK, acts, multiset{});
    var s := Run(TreeTheorems.Start(self), acts);
    InvParts(s, h, all, Sequential([-1], acts), b);
    forall m | m in OnTheWay(s.replies, id, custom)
      ensures m.uuid in s.ctl.counts
    {
      TracedFinal(s, h, all, m);
    }
    assert OnTheWay(s.replies, id, custom) == {};
    assert Said(s.ctl.log, id, custom) + 0 == (multiset{} + ServedIn(TreeTheorems.Start(self), acts))[(id, custom)];
  }

  lemma TracedFinal(s: Sys, h: History, all: set<Reply>, m: Reply)
    requires RepliesSound(h, all) && s.replies <= all && ExecsTraced(s, all)
    requires m in s.replies && m.cmd == Exec && m.code != NotFound
    ensures m.uuid in s.ctl.counts
  {
    hide NoExecs, QueuesMarked, RepliesSound;
    FinalIsOpen(s, h, all, m);
  }

  // Step k of the run lets node id carry out an exec, with that outcome.
  predicate ServesAt(s: Sys, acts: seq<Action>, k: nat, id: int, custom: bool)
    requires Runnable(s, acts)
    decreases |acts|
  {
    k < |acts|
    && if k > 0 then ServesAt(Apply(s, acts[0]), acts[1..], k - 1, id, custom)
       else
         && acts[0].Process? && acts[0].custom == custom && s.net[acts[0].x].self.id == id
         && s.queues[acts[0].x][0].req.cmd == Exec && s.queues[acts[0].x][0].req.id == id
  }

  lemma {:induction false} ServedSomewhere(s: Sys, acts: seq<Action>, id: int, custom: bool) returns (k: nat)
    requires Runnable(s, acts) && ServedIn(s, acts)[(id, custom)] > 0
    ensures ServesAt(s, acts, k, id, custom)
    decreases |acts|
  {
    hide Apply;
    k := 0;
    if ServedBy(s, acts[0])[(id, custom)] == 0 {
      k := ServedSomewhere(Apply(s, acts[0]), acts[1..], id, custom);
      k := k + 1;
    }
  }

  // An exec is reported as it ended at a node of that id, in a step before.
  lemma ReportHasItsStep(self: int, acts: seq<Action>, id: int, custom: bool) returns (k: nat)
    requires self != -1 && Runnable(TreeTheorems.Start(self), acts)
    requires ExecReport(id, custom) in Run(TreeTheorems.Start(self), acts).ctl.log
    ensures ServesAt(TreeTheorems.Start(self), acts, k, id, custom)
  {
    hide Run, Runnable, ServedIn;
    ExecsAreAccountedFor(self, acts);
    assert Said(Run(TreeTheorems.Start(self), acts).ctl.log, id, custom) > 0;
    k := ServedSomewhere(TreeTheorems.Start(self), acts, id, custom);
  }

  // So where every node's own variables allow what it is asked, or none's do, no report says otherwise.
  lemma {:induction false} UniformOutcome(self: int, acts: seq<Action>, custom: bool)
    requires self != -1 && Runnable(TreeTheorems.Start(self), acts)
    requires forall a :: a in acts && a.Process? ==> a.custom == custom
    ensures var log := Run(TreeTheorems.Start(self), acts).ctl.log;
            forall rep :: rep in log ==> if custom then !rep.ExecOk? else !rep.ExecError?
  {
    hide Run, Runnable;
    forall rep | rep in Run(TreeTheorems.Start(self), acts).ctl.log && (rep.ExecOk? || rep.ExecError?)
      ensures rep == ExecReport(rep.id, custom)
    {
      var k := ReportHasItsStep(self, acts, rep.id, rep.ExecError?);
      ServingStep(TreeTheorems.Start(self), acts, k, rep.id, rep.ExecError?);
    }
  }

  lemma {:induction false} ServingStep(s: Sys, acts: seq<Action>, k: nat, id: int, custom: bool)
    requires Runnable(s, acts) && ServesAt(s, acts, k, id, custom)
    ensures k < |acts| && acts[k].Process? && acts[k].custom == custom
    decreases |acts|
  {
    hide Apply;
    if k > 0 {
      ServingStep(Apply(s, acts[0]), acts[1..], k - 1, id, custom);
    }
  }
}
