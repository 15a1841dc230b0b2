// One compute process (compute_node.c) and the two child slots every node has (mq_node.c).
module ComputeNode {
  import opened Overlay
  import opened Controller

  // Sockets are the ports they are connected to, 0 for NULL.
  class MqNode {
    var leftId: int
    var rightId: int
    var leftMain: int
    var rightMain: int
    var leftPing: int
    var rightPing: int

    // A slot id is -1 exactly when its sockets are NULL.
    ghost predicate Valid()
      reads this
    {
      && (leftId == -1 <==> leftMain == 0) && (leftId == -1 <==> leftPing == 0)
      && (rightId == -1 <==> rightMain == 0) && (rightId == -1 <==> rightPing == 0)
    }

    ghost function Children(): Slots
      reads this
    {
      Slots(Peer(leftId, leftMain, leftPing), Peer(rightId, rightMain, rightPing))
    }

    constructor ()
      ensures Valid() && Children() == NO_CHILDREN
    {
      leftId, rightId := -1, -1;
      leftMain, leftPing, rightMain, rightPing := 0, 0, 0, 0;
    }

    method Connect(id: int, main: int, ping: int)
      requires Valid() && id != -1 && main != 0 && ping != 0
      modifies this
      ensures Valid() && Children() == Attach(old(Children()), Peer(id, main, ping))
    {
      if leftId == -1 {
        leftMain := main;
        leftPing := ping;
        leftId := id;
      } else if rightId == -1 {
        rightMain := main;
        rightPing := ping;
        rightId := id;
      }
    }

    method Close(id: int)
      requires Valid() && id != -1
      modifies this
      ensures Valid() && Children() == Detach(old(Children()), id)
    {
      if leftId == id {
        leftMain := 0;
        leftPing := 0;
        leftId := -1;
      } else if rightId == id {
        rightMain := 0;
        rightPing := 0;
        rightId := -1;
      }
    }

    method Destroy()
      requires Valid()
      modifies this
      ensures Valid() && Children() == NO_CHILDREN
    {
      if leftId != -1 {
        Close(leftId);
      }
      if rightId != -1 {
        Close(rightId);
      }
    }

    // The message goes to both children, left first.
    method PushAll(m: Msg, out: seq<(int, Msg)>) returns (out': seq<(int, Msg)>)
      ensures out' == PushOne(PushOne(out, leftMain, m), rightMain, m)
    {
      out' := out;
      if leftMain != 0 {
        out' := out' + [(leftMain, m)];
      }
      if rightMain != 0 {
        out' := out' + [(rightMain, m)];
      }
    }
  }

  // A node may be told to connect to a real node on real ports, and to let go of a real node.
  predicate Connectable(req: Request) {
    && (req.cmd.Create? || req.cmd.Connect? ==> req.id != -1 && req.main != 0 && req.ping != 0)
    && (req.cmd.Disconnect? ==> req.id != -1)
  }

  class ComputeNode {
    const id: int
    const port: int
    const node: MqNode
    var exited: bool
    var sent: seq<(int, Msg)>
    var replies: seq<Reply>

    ghost predicate Valid()
      reads this, node
    {
      node.Valid()
    }

    constructor (id: int, port: int)
      ensures Valid() && fresh(node) && node.Children() == NO_CHILDREN && !exited && sent == [] && replies == []
      ensures this.id == id && this.port == port
    {
      this.id := id;
      this.port := port;
      node := new MqNode();
      exited := false;
      sent := [];
      replies := [];
    }

    // The effect of one request, in terms of what React decides.
    twostate predicate Handled(m: Msg, code: Code)
      reads this, node
    {
      match React(id, old(node.Children()), m.req)
      case Act(s, exits) =>
        && replies == old(replies) + [Reply(m.uuid, m.req.cmd, m.req.id, code, port)] && sent == old(sent)
        && node.Children() == (if exits then NO_CHILDREN else s) && exited == exits
      case Forward =>
        && node.Children() == old(node.Children()) && !exited
        && if IsLeaf(node.Children()) then
             sent == old(sent) && replies == old(replies) + [Reply(m.uuid, m.req.cmd, m.req.id, NotFound, port)]
           else
             replies == old(replies)
             && sent == PushOne(PushOne(old(sent), node.Children().left.main, m), node.Children().right.main, m)
      case Silent => node.Children() == old(node.Children()) && !exited && sent == old(sent) && replies == old(replies)
    }

    method ReplyCode(m: Msg, code: Code)
      modifies this`replies
      ensures replies == old(replies) + [Reply(m.uuid, m.req.cmd, m.req.id, code, port)]
    {
      replies := replies + [Reply(m.uuid, m.req.cmd, m.req.id, code, port)];
    }

    method PushNext(m: Msg)
      requires Valid()
      modifies this`replies, this`sent
      ensures if IsLeaf(node.Children()) then
                sent == old(sent) && replies == old(replies) + [Reply(m.uuid, m.req.cmd, m.req.id, NotFound, port)]
              else
                replies == old(replies)
                && sent == PushOne(PushOne(old(sent), node.Children().left.main, m), node.Children().right.main, m)
    {
      if node.leftMain != 0 || node.rightMain != 0 {
        sent := node.PushAll(m, sent);
      } else {
        ReplyCode(m, NotFound);
      }
    }

    method CmdConnect(m: Msg)
      requires Valid() && !exited && (m.req.cmd.Connect? || m.req.cmd.Create?) && Connectable(m.req)
      modifies this, node
      ensures Valid() && Handled(m, Ok)
      ensures id == m.req.id && id != m.req.parent ==>
                !exited && sent == old(sent) && replies == old(replies) && node.Children() == old(node.Children())
    {
      if id != m.req.parent && id != m.req.id {
        PushNext(m);
      } else if id == m.req.parent {
        node.Connect(m.req.id, m.req.main, m.req.ping);
        ReplyCode(m, Ok);
      }
    }

    method CmdRemove(m: Msg)
      requires Valid() && !exited && m.req.cmd.Remove?
      modifies this, node
      ensures Valid() && Handled(m, Ok)
    {
      if m.req.id == id {
        ReplyCode(m, Ok);
        node.Destroy();
        exited := true;
      } else {
        PushNext(m);
      }
    }

    method CmdPing(m: Msg)
      requires Valid() && !exited && m.req.cmd.Ping?
      modifies this, node
      ensures Valid() && Handled(m, Ok)
    {
      if m.req.id == id {
        ReplyCode(m, Ok);
      } else {
        PushNext(m);
      }
    }

    // `custom` tells whether the node's own variables make it answer with an error.
    method CmdExec(m: Msg, custom: bool)
      requires Valid() && !exited && m.req.cmd.Exec?
      modifies this, node
      ensures Valid() && Handled(m, if custom then Custom else Ok)
    {
      if m.req.id == id {
        ReplyCode(m, if custom then Custom else Ok);
      } else {
        PushNext(m);
      }
    }

    method CmdDisconnect(m: Msg)
      requires Valid() && !exited && m.req.cmd.Disconnect? && m.req.id != -1
      modifies this, node
      ensures Valid() && Handled(m, Ok)
    {
      if node.leftId == m.req.id || node.rightId == m.req.id {
        node.Close(m.req.id);
        ReplyCode(m, Ok);
      } else {
        PushNext(m);
      }
    }

    // The command dispatch of the main loop.
    method Handle(m: Msg, custom: bool)
      requires Valid() && !exited && Connectable(m.req)
      modifies this, node
      ensures Valid() && Handled(m, if m.req.cmd == Exec && custom then Custom else Ok)
    {
      match m.req.cmd
      case Exec => CmdExec(m, custom);
      case Ping => CmdPing(m);
      case Remove => CmdRemove(m);
      case Connect => CmdConnect(m);
      case Create => CmdConnect(m);
      case Disconnect => CmdDisconnect(m);
    }

    // A ping is answered with one's own pong and passed on to both children.
    method OnPing(pongs: seq<int>, pings: seq<int>) returns (pongs': seq<int>, pings': seq<int>)
      requires Valid()
      ensures pongs' == pongs + [id] && pings' == pings + PingBoth(node.Children())
    {
      pongs' := pongs + [id];
      pings' := pings;
      if node.leftPing != 0 {
        pings' := pings' + [node.leftPing];
      }
      if node.rightPing != 0 {
        pings' := pings' + [node.rightPing];
      }
    }
  }
}
