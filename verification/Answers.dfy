// Which replies a flood produces, and how many of them say "not found".
module Answers {
  import opened Overlay
  import opened HeapShape
  import opened Flood

  // In an array heap of n nodes the leaves are the indices from n/2 on: (n + 1) / 2 of them.
  predicate LeafIndex(n: nat, i: nat) { i < n && 2 * i + 1 >= n }

  // A reply of request m.uuid, written by index i of that request's layout.
  ghost predicate WrittenBy(h: History, m: Reply, i: nat) {
    && Vis(h, m.uuid, i) && i > 0 && At(h, m.uuid, i) == m.from
    && m.from in h.clock && m.uuid < h.clock[m.from]
    && m.cmd == h.rounds[m.uuid].req.cmd && m.id == h.rounds[m.uuid].req.id
    && (m.code == Custom ==> m.cmd == Exec)
    && if i == h.rounds[m.uuid].a then m.code != NotFound
       else m.code == NotFound && LeafIndex(|h.rounds[m.uuid].c|, i)
  }

  ghost predicate RepliesSound(h: History, all: set<Reply>) {
    && (forall m :: m in all ==> exists i: nat :: WrittenBy(h, m, i))
    && (forall m, m' :: m in all && m' in all && m.uuid == m'.uuid && m.from == m'.from ==> m == m')
  }

  // Index i of request r is one of those that write a reply.
  ghost predicate Answerer(h: History, r: nat, i: nat) {
    Vis(h, r, i) && i > 0 && (i == h.rounds[r].a || LeafIndex(|h.rounds[r].c|, i))
  }

  ghost predicate Replied(all: set<Reply>, r: nat, x: int) {
    exists m :: m in all && m.uuid == r && m.from == x
  }

  ghost predicate RepliesComplete(h: History, all: set<Reply>) {
    forall r: nat, i: nat :: Answerer(h, r, i) && At(h, r, i) in h.clock && r < h.clock[At(h, r, i)] ==>
      Replied(all, r, At(h, r, i))
  }

  ghost predicate AnswersInv(h: History, all: set<Reply>) {
    RepliesSound(h, all) && RepliesComplete(h, all)
  }

  // ---- One delivery adds at most one reply, and it is new ----

  lemma WrittenSurvives(h: History, x: int, r: nat, m: Reply, i: nat)
    requires WrittenBy(h, m, i) && x in h.clock && h.clock[x] <= r
    ensures WrittenBy(Seen(h, x, r), m, i)
  {
  }

  function AllAfter(all: set<Reply>, d: Delivery): set<Reply> {
    if d.reply.Some? then all + {d.reply.value} else all
  }

  lemma DeliverReply(h: History, net: Net, qs: Queues, x: int, custom: bool, i: nat)
    requires Chain(h) && x in qs && qs[x] != [] && Facing(h, net, x, qs[x][0].uuid, i)
    requires qs[x][0] == Msg(qs[x][0].uuid, h.rounds[qs[x][0].uuid].req)
    ensures var d, r := Deliver(net, qs, x, custom), qs[x][0].uuid;
            && (d.reply.Some? <==> Answerer(h, r, i))
            && (d.reply.Some? ==> d.reply.value.uuid == r && WrittenBy(Seen(h, x, r), d.reply.value, i))
  {
    ArrivedIsFlood(h, qs[x][0].uuid, i);
    var c := h.rounds[qs[x][0].uuid].c;
    assert IsLeaf(Kids(c, i)) <==> LeafIndex(|c|, i);
  }

  lemma DeliverSoundReplies(h: History, net: Net, qs: Queues, x: int, custom: bool, i: nat, all: set<Reply>)
    requires Chain(h) && x in qs && qs[x] != [] && Facing(h, net, x, qs[x][0].uuid, i)
    requires qs[x][0] == Msg(qs[x][0].uuid, h.rounds[qs[x][0].uuid].req)
    requires RepliesSound(h, all)
    ensures RepliesSound(Seen(h, x, qs[x][0].uuid), AllAfter(all, Deliver(net, qs, x, custom)))
    ensures var d := Deliver(net, qs, x, custom); d.reply.Some? ==> d.reply.value !in all
  {
    var d, r := Deliver(net, qs, x, custom), qs[x][0].uuid;
    var h' := Seen(h, x, r);
    DeliverReply(h, net, qs, x, custom, i);
    forall m | m in all
      ensures (exists k: nat :: WrittenBy(h', m, k)) && !(m.uuid == r && m.from == x)
    {
      var k: nat :| WrittenBy(h, m, k);
      WrittenSurvives(h, x, r, m, k);
    }
  }

  lemma DeliverCompleteReplies(h: History, net: Net, qs: Queues, x: int, custom: bool, i: nat, all: set<Reply>)
    requires Chain(h) && InOrder(h) && x in qs && qs[x] != [] && Facing(h, net, x, qs[x][0].uuid, i)
    requires qs[x][0] == Msg(qs[x][0].uuid, h.rounds[qs[x][0].uuid].req)
    requires RepliesComplete(h, all)
    ensures RepliesComplete(Seen(h, x, qs[x][0].uuid), AllAfter(all, Deliver(net, qs, x, custom)))
  {
    var d, r := Deliver(net, qs, x, custom), qs[x][0].uuid;
    var h', all' := Seen(h, x, r), AllAfter(all, d);
    DeliverReply(h, net, qs, x, custom, i);
    forall u: nat, j: nat | Answerer(h', u, j) && At(h', u, j) in h'.clock && u < h'.clock[At(h', u, j)]
      ensures Replied(all', u, At(h', u, j))
    {
      assert Answerer(h, u, j);
      if At(h, u, j) == x && h.clock[x] <= u {
        assert u < r ==> Arrived(h, u, j);
        SameSpot(h, r, i, j);
        assert d.reply.value in all';
      } else {
        assert Replied(all, u, At(h, u, j));
      }
    }
  }

  lemma SameSpot(h: History, r: nat, i: nat, j: nat)
    requires Chain(h) && Vis(h, r, i) && i > 0
    ensures Vis(h, r, j) && At(h, r, i) == At(h, r, j) ==> i == j
  {
    VisIsFlood(h, r, i);
  }

  // ---- Extending the history produces no reply ----

  lemma ExtendAnswers(h: History, rd: Round, n': Net, started: set<int>, all: set<Reply>)
    requires Chain(h) && Clocks(h) && started !! h.clock.Keys && 0 !in started && AnswersInv(h, all)
    requires var h' := Extend(h, rd, n', started); Chain(h') && Clocks(h')
    ensures AnswersInv(Extend(h, rd, n', started), all)
  {
    var h' := Extend(h, rd, n', started);
    forall m | m in all
      ensures exists i: nat :: WrittenBy(h', m, i)
    {
      var i: nat :| WrittenBy(h, m, i);
      ExtendVis(h, rd, n', started, m.uuid, i);
      VisIsFlood(h, m.uuid, i);
      assert WrittenBy(h', m, i);
    }
    forall r: nat, i: nat | Answerer(h', r, i) && At(h', r, i) in h'.clock && r < h'.clock[At(h', r, i)]
      ensures Replied(all, r, At(h', r, i))
    {
      VisIsFlood(h', r, i);
      ExtendVis(h, rd, n', started, r, i);
      if r < Now(h) {
        assert Answerer(h, r, i);
        VisIsFlood(h, r, i);
      }
    }
  }
}
