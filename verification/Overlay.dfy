// The messages, child slots and reactions of one node of the lab6 tree, as values.
module Overlay {

  // A node as the tree and the sockets know it: its id and its two ports, 0 standing for NULL.
  datatype Peer = Peer(id: int, main: int, ping: int)

  // An empty child slot; also how the control node appears in the tree array.
  const NO_PEER := Peer(-1, 0, 0)

  datatype Slots = Slots(left: Peer, right: Peer)

  const NO_CHILDREN := Slots(NO_PEER, NO_PEER)

  datatype Proc = Proc(self: Peer, slots: Slots)

  // Live processes, filed under the port their main socket is bound to.
  type Net = map<int, Proc>

  datatype Command = Create | Connect | Remove | Disconnect | Ping | Exec

  datatype Code = Ok | NotFound | Custom

  datatype Request = Request(cmd: Command, id: int, parent: int, main: int, ping: int)

  datatype Msg = Msg(uuid: nat, req: Request)

  // `from` identifies the process that wrote the reply; the controller never reads it.
  datatype Reply = Reply(uuid: nat, cmd: Command, id: int, code: Code, from: int)

  function Attach(s: Slots, p: Peer): Slots {
    if s.left.id == -1 then s.(left := p)
    else if s.right.id == -1 then s.(right := p)
    else s
  }

  function Detach(s: Slots, id: int): Slots {
    if s.left.id == id then s.(left := NO_PEER)
    else if s.right.id == id then s.(right := NO_PEER)
    else s
  }

  // What a compute node does with a request: act on it and answer, pass it on, or nothing.
  datatype Verdict = Act(slots: Slots, exits: bool) | Forward | Silent

  function React(self: int, s: Slots, req: Request): Verdict {
    match req.cmd
    case Create | Connect =>
      if self != req.parent && self != req.id then Forward
      else if self == req.parent then Act(Attach(s, Peer(req.id, req.main, req.ping)), false)
      else Silent
    case Remove => if self == req.id then Act(s, true) else Forward
    case Ping | Exec => if self == req.id then Act(s, false) else Forward
    case Disconnect =>
      if s.left.id == req.id || s.right.id == req.id then Act(Detach(s, req.id), false) else Forward
  }

  predicate IsLeaf(s: Slots) { s.left.main == 0 && s.right.main == 0 }

  // Per-process FIFO inboxes.
  type Queues = map<int, seq<Msg>>

  // A message to a port nobody is bound to is lost.
  function Push(qs: Queues, port: int, m: Msg): Queues {
    if port != 0 && port in qs then qs[port := qs[port] + [m]] else qs
  }

  function PushBoth(qs: Queues, s: Slots, m: Msg): Queues {
    Push(Push(qs, s.left.main, m), s.right.main, m)
  }

  // The ping sockets a heartbeat ping is passed on to.
  function PingBoth(s: Slots): seq<int> {
    (if s.left.ping != 0 then [s.left.ping] else []) + (if s.right.ping != 0 then [s.right.ping] else [])
  }

  datatype Option<T> = None | Some(value: T)

  datatype Delivery = Delivery(net: Net, queues: Queues, reply: Option<Reply>)

  // Process x takes the oldest request out of its inbox.  Only `exec` can be answered with a
  // custom error; which of the two it is depends on the node's own variables.
  function Deliver(net: Net, qs: Queues, x: int, custom: bool): Delivery
    requires x in net && x in qs && qs[x] != []
  {
    var m, p := qs[x][0], net[x];
    var rest := qs[x := qs[x][1..]];
    match React(p.self.id, p.slots, m.req)
    case Act(s, exits) =>
      var code := if m.req.cmd == Exec && custom then Custom else Ok;
      Delivery(if exits then net - {x} else net[x := Proc(p.self, s)],
               if exits then qs - {x} else rest,
               Some(Reply(m.uuid, m.req.cmd, m.req.id, code, x)))
    case Forward =>
      if IsLeaf(p.slots) then Delivery(net, rest, Some(Reply(m.uuid, m.req.cmd, m.req.id, NotFound, x)))
      else Delivery(net, PushBoth(rest, p.slots, m), None)
    case Silent => Delivery(net, rest, None)
  }
}
