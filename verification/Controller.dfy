// The control node (control_node.c) as a state machine on values: the removal scripts, the answer
// counters and the reports it prints.
module Controller {
  import opened Overlay
  import opened TreeArray

  // One entry of a script's flat array of C strings.
  datatype Word = Name(cmd: Command) | Number(n: int) | Address(port: int)

  // The commands of a script follow each other in one array, a NULL after each; `now` counts
  // the commands already done.
  datatype Script = Script(target: int, words: seq<Option<Word>>, number: nat, now: nat)

  datatype Report =
    | ErrExists | ErrNotFound | ErrControl
    | CreateOk(pid: int) | CreateNotFound(id: int) | CreateFailed
    | RemoveOk | RemoveFailed(cmd: Command, id: int)
    | ExecOk(id: int) | ExecNotFound(id: int) | ExecError(id: int)
    | Broken // the C code would be reading past a script or a list here

  // `self` is the control process's own pid; `serial` numbers the requests (and the controller's own
  // actions); `out` collects what has been pushed into the sockets, with the port at the other end.
  datatype Ctl = Ctl(self: int, tree: seq<TreeNode>, slots: Slots, scripts: seq<Script>, counts: map<nat, int>,
                     pings: map<int, int>, serial: nat, nextPort: int, out: seq<(int, Msg)>, log: seq<Report>)

  function Say(c: Ctl, r: Report): Ctl { c.(log := c.log + [r]) }

  // ---- Sending ----

  function PushOne(out: seq<(int, Msg)>, port: int, m: Msg): seq<(int, Msg)> {
    if port != 0 then out + [(port, m)] else out
  }

  // A fresh request to both children, with the counter of answers it may draw.
  function Send(c: Ctl, req: Request): Ctl {
    var m := Msg(c.serial, req);
    c.(counts := c.counts[c.serial := (|c.tree| + 1) / 2],
       out := PushOne(PushOne(c.out, c.slots.left.main, m), c.slots.right.main, m),
       serial := c.serial + 1)
  }

  // ---- Creating ----

  function RecCreate(c: Ctl, id: int, code: Code, count: int): Ctl {
    match code
    case NotFound => if count == 0 then Say(c, CreateNotFound(id)) else c
    case Custom => Say(c.(tree := if |c.tree| > 0 then Removed(c.tree, id) else c.tree), CreateFailed)
    case Ok => Say(c.(pings := c.pings[id := 0]), CreateOk(Find(c.tree, id).pid))
  }

  function PushCreate(c: Ctl, id: int, parent: int, main: int, ping: int): Ctl {
    if parent == -1 then
      RecCreate(c.(slots := Attach(c.slots, Peer(id, main, ping)), serial := c.serial + 1), id, Ok, 0)
    else Send(c, Request(Create, id, parent, main, ping))
  }

  // `pid` is what fork returned; the two ports are the next two numbers.
  function CmdCreate(c: Ctl, id: int, pid: int): Ctl {
    if Find(c.tree, id).pid != -1 then Say(c, ErrExists)
    else
      var node := TreeNode(id, pid, c.nextPort, c.nextPort + 1);
      var c1 := c.(tree := c.tree + [node], nextPort := c.nextPort + 2, serial := c.serial + 1);
      if |c.tree| == 0 then Say(c1, Broken)
      else PushCreate(c1, id, c1.tree[(|c1.tree| - 2) / 2].id, node.main, node.ping)
  }

  // ---- Removing: the scripts ----

  function Port(p: int): Option<Word> { if p == 0 then None else Some(Address(p)) }

  function Num(n: int): Option<Word> { Some(Number(n)) }

  // `cmd id NULL`
  function Plain(cmd: Command, id: int): seq<Option<Word>> { [Some(Name(cmd)), Num(id), None] }

  // `connect id parent main_address ping_address NULL`
  function ConnectTo(child: TreeNode, parent: int): seq<Option<Word>> {
    [Some(Name(Connect)), Num(child.id), Num(parent), Port(child.main), Port(child.ping), None]
  }

  function ShortWords(id: int): seq<Option<Word>> { Plain(Remove, id) + Plain(Disconnect, id) }

  function LongWords(id: int, last: TreeNode, parent: TreeNode, left: TreeNode, right: TreeNode): seq<Option<Word>> {
    Plain(Ping, id) + Plain(Disconnect, last.id) + Plain(Remove, id) + Plain(Disconnect, id)
    + ConnectTo(last, parent.id) + ConnectTo(left, last.id) + ConnectTo(right, last.id) + [None]
  }

  function ScriptFor(t: seq<TreeNode>, id: int): Script
    requires |t| > 0
  {
    var last, left, right := t[|t| - 1], LeftOf(t, id), RightOf(t, id);
    var target := Find(t, id).id;
    if last.id == target then Script(target, ShortWords(target), 2, 0)
    else
      Script(target, LongWords(target, last, ParentOf(t, id), left, right),
             5 + (if left.id != last.id && left.id != -1 then 1 else 0)
               + (if right.id != last.id && right.id != -1 then 1 else 0), 0)
  }

  // The scanning loop: step over `k` NULLs, starting at position p.
  function Skip(words: seq<Option<Word>>, p: nat, k: nat): nat
    decreases |words| - p
  {
    if k == 0 || p >= |words| then p
    else Skip(words, p + 1, if words[p] == None then k - 1 else k)
  }

  function Start(sc: Script): nat { Skip(sc.words, 0, sc.now) }

  predicate StandsAt(sc: Script, cmd: Command, id: int) {
    var p := Start(sc);
    p + 1 < |sc.words| && sc.words[p] == Some(Name(cmd)) && sc.words[p + 1] == Num(id)
  }

  // The request the script's current command stands for.
  function Decode(sc: Script): Option<Request> {
    var w, p := sc.words, Start(sc);
    if p + 1 < |w| && w[p].Some? && w[p].value.Name? && w[p + 1].Some? && w[p + 1].value.Number? then
      if w[p].value.cmd == Connect then
        if p + 4 < |w| && w[p + 2].Some? && w[p + 2].value.Number? && w[p + 3].Some? && w[p + 3].value.Address?
           && w[p + 4].Some? && w[p + 4].value.Address? then
          Some(Request(Connect, w[p + 1].value.n, w[p + 2].value.n, w[p + 3].value.port, w[p + 4].value.port))
        else None
      else Some(Request(w[p].value.cmd, w[p + 1].value.n, 0, 0, 0))
    else None
  }

  // The first script whose current command is the one answered.
  function Matching(scripts: seq<Script>, cmd: Command, id: int): (i: nat)
    ensures i <= |scripts|
    ensures i < |scripts| ==> StandsAt(scripts[i], cmd, id)
    ensures forall j :: 0 <= j < i ==> !StandsAt(scripts[j], cmd, id)
  {
    if scripts == [] then 0
    else if StandsAt(scripts[0], cmd, id) then 0
    else 1 + Matching(scripts[1..], cmd, id)
  }

  // ---- Removing: the protocol ----

  function Left(sc: Script): nat { if sc.now < sc.number then sc.number - sc.now else 0 }

  // How many commands all pending scripts still have to go through.
  function TotalLeft(scripts: seq<Script>): nat {
    if scripts == [] then 0 else Left(scripts[0]) + TotalLeft(scripts[1..])
  }

  lemma {:induction false} TotalLeftUpdate(scripts: seq<Script>, i: nat, sc: Script)
    requires i < |scripts|
    ensures TotalLeft(scripts[i := sc]) == TotalLeft(scripts) - Left(scripts[i]) + Left(sc)
  {
    if i > 0 {
      assert scripts[i := sc][1..] == scripts[1..][i - 1 := sc];
      TotalLeftUpdate(scripts[1..], i - 1, sc);
    } else {
      assert scripts[i := sc][1..] == scripts[1..];
    }
  }

  // Send the script's current command, or carry it out if it concerns the control node itself.
  function PushNext(c: Ctl, sc: Script): Ctl
    decreases TotalLeft(c.scripts), 1
  {
    match Decode(sc)
    case None => Say(c, Broken)
    case Some(req) =>
      if req.cmd == Disconnect && (c.slots.left.id == req.id || c.slots.right.id == req.id) then
        RecRemove(c.(slots := Detach(c.slots, req.id), serial := c.serial + 1), Disconnect, req.id, Ok, 0)
      else if req.cmd == Connect && req.parent == -1 then
        RecRemove(c.(slots := Attach(c.slots, Peer(req.id, req.main, req.ping)), serial := c.serial + 1),
                  Connect, req.id, Ok, 0)
      else if req.cmd == Ping && req.id == -1 then
        RecRemove(c.(serial := c.serial + 1), Ping, req.id, Ok, 0)
      else Send(c, req)
  }

  function Drop(scripts: seq<Script>, i: nat): seq<Script>
    requires i < |scripts|
  {
    scripts[..i] + scripts[i + 1..]
  }

  // An answer to a script's command: advance the script, finish it or give it up.
  function RecRemove(c: Ctl, cmd: Command, id: int, code: Code, count: int): Ctl
    decreases TotalLeft(c.scripts), 0
  {
    if code == NotFound && count > 0 then c
    else
      var i := Matching(c.scripts, cmd, id);
      if i == |c.scripts| then Say(c, Broken)
      else
        var sc := c.scripts[i].(now := c.scripts[i].now + 1);
        var c1 := c.(scripts := c.scripts[i := sc]);
        if (code == NotFound && count == 0) || code == Custom then
          Say(c1.(scripts := Drop(c.scripts, i)), RemoveFailed(cmd, id))
        else if code == Ok then
          if sc.now >= sc.number then
            Say(c1.(scripts := Drop(c.scripts, i), pings := c.pings - {sc.target},
                    tree := if |c.tree| > 0 then Removed(c.tree, sc.target) else c.tree), RemoveOk)
          else
            TotalLeftUpdate(c.scripts, i, sc);
            PushNext(c1, sc)
        else c1
  }

  function CmdRemove(c: Ctl, id: int): Ctl {
    if Find(c.tree, id).pid == -1 then Say(c, ErrNotFound)
    else if Find(c.tree, id).pid == c.self then Say(c, ErrControl)
    else if |c.tree| == 0 then Say(c, Broken)
    else
      var sc := ScriptFor(c.tree, id);
      PushNext(c.(scripts := [sc] + c.scripts), sc)
  }

  // ---- Executing ----

  function CmdExec(c: Ctl, id: int): Ctl {
    if Find(c.tree, id).pid == -1 then Say(c, ErrNotFound)
    else if Find(c.tree, id).pid == c.self then Say(c, ErrControl)
    else Send(c, Request(Exec, id, 0, 0, 0))
  }

  function RecExec(c: Ctl, id: int, code: Code, count: int): Ctl {
    if code == NotFound && count == 0 then Say(c, ExecNotFound(id))
    else if code == Custom then Say(c, ExecError(id))
    else if code == Ok then Say(c, ExecOk(id))
    else c
  }

  // ---- Receiving ----

  // A reply counts down its request's counter; replies to a finished request are ignored.
  function ReceiveProcess(c: Ctl, m: Reply): Ctl {
    if m.uuid !in c.counts then c
    else
      var count := c.counts[m.uuid] - 1;
      var c1 := c.(counts := c.counts[m.uuid := count]);
      var c2 := match m.cmd
        case Create => RecCreate(c1, m.id, m.code, count)
        case Exec => RecExec(c1, m.id, m.code, count)
        case Remove | Ping | Connect | Disconnect => RecRemove(c1, m.cmd, m.id, m.code, count);
      if (m.code == NotFound && count == 0) || m.code == Custom || m.code == Ok then
        c2.(counts := c2.counts - {m.uuid})
      else c2
  }

  // ---- Scripts come to their end ----

  lemma {:induction false} TotalLeftDrop(scripts: seq<Script>, i: nat)
    requires i < |scripts|
    ensures TotalLeft(Drop(scripts, i)) == TotalLeft(scripts) - Left(scripts[i])
  {
    if i > 0 {
      assert Drop(scripts, i)[1..] == Drop(scripts[1..], i - 1);
      TotalLeftDrop(scripts[1..], i - 1);
    } else {
      assert Drop(scripts, 0) == scripts[1..];
    }
  }

  // Every request or own action of the controller uses up a command of some script, so
  // rec_remove and push_next_remove calling each other cannot go on for ever.
  lemma {:induction false} RecRemoveSpends(c: Ctl, cmd: Command, id: int, code: Code, count: int)
    ensures var c' := RecRemove(c, cmd, id, code, count);
            c'.serial + TotalLeft(c'.scripts) <= c.serial + TotalLeft(c.scripts)
    decreases TotalLeft(c.scripts), 0
  {
    var i := Matching(c.scripts, cmd, id);
    if i < |c.scripts| {
      var sc := c.scripts[i].(now := c.scripts[i].now + 1);
      TotalLeftUpdate(c.scripts, i, sc);
      TotalLeftDrop(c.scripts, i);
      if code == Ok && sc.now < sc.number {
        PushNextSpends(c.(scripts := c.scripts[i := sc]), sc);
      }
    }
  }

  lemma {:induction false} PushNextSpends(c: Ctl, sc: Script)
    ensures var c' := PushNext(c, sc);
            c'.serial + TotalLeft(c'.scripts) <= c.serial + TotalLeft(c.scripts) + 1
    decreases TotalLeft(c.scripts), 1
  {
    if Decode(sc).Some? {
      var req := Decode(sc).value;
      if req.cmd == Disconnect {
        RecRemoveSpends(c.(slots := Detach(c.slots, req.id), serial := c.serial + 1), Disconnect, req.id, Ok, 0);
      } else if req.cmd == Connect {
        RecRemoveSpends(c.(slots := Attach(c.slots, Peer(req.id, req.main, req.ping)), serial := c.serial + 1),
                        Connect, req.id, Ok, 0);
      } else if req.cmd == Ping {
        RecRemoveSpends(c.(serial := c.serial + 1), Ping, req.id, Ok, 0);
      }
    }
  }

  lemma ReceiveSpends(c: Ctl, m: Reply)
    ensures var c' := ReceiveProcess(c, m);
            c'.serial + TotalLeft(c'.scripts) <= c.serial + TotalLeft(c.scripts)
  {
    if m.uuid in c.counts {
      var count := c.counts[m.uuid] - 1;
      RecRemoveSpends(c.(counts := c.counts[m.uuid := count]), m.cmd, m.id, m.code, count);
    }
  }
}
