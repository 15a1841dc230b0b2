// Every request is flooded down the tree while older requests are still travelling: processes
// run at their own speed, each reading its own inbox in order.  A ghost history of the network,
// one entry per request, shows that the overlapping floods behave as if each had run alone.
module Flood {
  import opened Overlay
  import opened HeapShape

  // A request together with the layout the network has for it: entry a of c is the one node
  // that acts on it (a == 0: the controller acts itself, nothing is sent; a >= |c|: nobody acts).
  datatype Round = Round(req: Request, c: seq<Peer>, a: nat)

  // nets[r] is the network as request r finds it, clock[x] the first request that process x
  // has not yet seen.
  datatype History = History(rounds: seq<Round>, nets: seq<Net>, clock: map<int, nat>)

  // Every child slot in the network is empty or agrees with the layout.
  ghost predicate LinksFollow(n: Net, c: seq<Peer>) {
    && (forall i :: 0 <= i < |c| ==> SlotsFit(n, c, i))
    && (forall x {:trigger Listed(c, x)} :: x in n && !Listed(c, x) ==> n[x].slots == NO_CHILDREN)
  }

  ghost predicate Listed(c: seq<Peer>, x: int) { exists i :: 0 <= i < |c| && c[i].main == x }

  ghost predicate SlotsFit(n: Net, c: seq<Peer>, i: nat)
    requires i < |c|
  {
    c[i].main in n ==>
      && n[c[i].main].slots.left in [NO_PEER, Kid(c, 2 * i + 1)]
      && n[c[i].main].slots.right in [NO_PEER, Kid(c, 2 * i + 2)]
  }

  // The layout is intact at every node the flood reaches before the acting one.
  ghost predicate IntactAbove(n: Net, rd: Round) {
    forall i :: 0 <= i < |rd.c| ==> Intact(n, rd, i)
  }

  ghost predicate Intact(n: Net, rd: Round, i: nat)
    requires i < |rd.c|
  {
    Visited(rd.a, i) ==>
      && rd.c[i].main in n
      && n[rd.c[i].main].self == rd.c[i]
      && (i != rd.a ==> n[rd.c[i].main].slots == Kids(rd.c, i) && React(rd.c[i].id, Kids(rd.c, i), rd.req) == Forward)
  }

  function Effect(n: Net, x: int, req: Request): Net
    requires x in n && React(n[x].self.id, n[x].slots, req).Act?
  {
    var v := React(n[x].self.id, n[x].slots, req);
    if v.exits then n - {x} else n[x := Proc(n[x].self, v.slots)]
  }

  ghost predicate ProperFlood(n: Net, rd: Round, n': Net) {
    && GoodLayout(rd.c) && LinksFollow(n, rd.c) && IntactAbove(n, rd)
    && if rd.a < |rd.c| then
         var x := rd.c[rd.a].main;
         (x in n && React(n[x].self.id, n[x].slots, rd.req).Act? && n' == Effect(n, x, rd.req))
       else n' == n
  }

  // The controller changed its own slots, or started a process, without sending anything.
  ghost predicate ProperLocal(n: Net, n': Net) {
    0 in n' && forall x :: x in n && x != 0 ==> x in n' && n'[x] == n[x]
  }

  ghost predicate ProperRound(n: Net, rd: Round, n': Net) {
    && 0 in n && |rd.c| >= 1 && rd.c[0].main == 0
    && if rd.a == 0 then ProperLocal(n, n') else ProperFlood(n, rd, n')
  }

  function Now(h: History): nat { |h.rounds| }

  // Request r reaches index i of its layout.
  ghost predicate Vis(h: History, r: nat, i: nat) {
    r < |h.rounds| && i < |h.rounds[r].c| && Visited(h.rounds[r].a, i)
  }

  function At(h: History, r: nat, i: nat): int
    requires r < |h.rounds| && i < |h.rounds[r].c|
  {
    h.rounds[r].c[i].main
  }

  ghost predicate IsActor(h: History, r: nat, x: int)
    requires r < |h.rounds|
  {
    h.rounds[r].a < |h.rounds[r].c| && At(h, r, h.rounds[r].a) == x
  }

  ghost predicate RoundOk(h: History, r: nat)
    requires r < Now(h) && |h.nets| == Now(h) + 1
  {
    ProperRound(h.nets[r], h.rounds[r], h.nets[r + 1])
  }

  ghost predicate Chain(h: History) {
    && |h.nets| == Now(h) + 1
    && (forall r {:trigger RoundOk(h, r)} :: 0 <= r < Now(h) ==> RoundOk(h, r))
    && 0 in h.nets[Now(h)]
  }

  // Process x is started between request r and the next one.
  ghost predicate Starts(h: History, r: nat, x: int)
    requires |h.nets| == Now(h) + 1
  {
    r < Now(h) && x in h.nets[r + 1] && x !in h.nets[r]
  }

  ghost predicate Clocks(h: History)
    requires |h.nets| == Now(h) + 1
  {
    && 0 in h.clock && h.clock[0] == Now(h)
    && (forall x :: x in h.clock ==> h.clock[x] <= Now(h))
    && (forall r, x :: 0 <= r <= Now(h) && x in h.nets[r] ==> x in h.clock)
    && (forall r: nat, x :: Starts(h, r, x) && x in h.clock ==> r + 1 <= h.clock[x])
  }

  // Each live process is in the state the history gives it at its own time.
  ghost predicate Synced(h: History, net: Net)
    requires |h.nets| == Now(h) + 1 && Clocks(h)
  {
    && (forall x :: x in net ==> x in h.clock)
    && (forall x :: x in h.clock ==> (x in net <==> x in h.nets[h.clock[x]]))
    && (forall x :: x in net ==> net[x] == h.nets[h.clock[x]][x])
  }

  // Request r has been handed to the process at index i of its layout.
  ghost predicate Arrived(h: History, r: nat, i: nat) {
    && Vis(h, r, i) && i > 0
    && At(h, r, Parent(i)) in h.clock && r < h.clock[At(h, r, Parent(i))]
  }

  ghost predicate InboxSound(h: History, x: int, q: seq<Msg>) {
    && (forall j :: 0 <= j < |q| ==> InboxEntry(h, x, q[j]))
    && (forall j, k :: 0 <= j < k < |q| ==> q[j].uuid < q[k].uuid)
  }

  ghost predicate InboxEntry(h: History, x: int, m: Msg) {
    && x in h.clock && h.clock[x] <= m.uuid < Now(h)
    && m.req == h.rounds[m.uuid].req
    && exists i: nat :: Arrived(h, m.uuid, i) && At(h, m.uuid, i) == x
  }

  ghost predicate QueuesSound(h: History, qs: Queues) {
    forall x {:trigger InboxSound(h, x, qs[x])} :: x in qs ==> InboxSound(h, x, qs[x])
  }

  ghost predicate QueuesComplete(h: History, qs: Queues) {
    forall r: nat, i: nat :: Arrived(h, r, i) && At(h, r, i) in h.clock && h.clock[At(h, r, i)] <= r ==>
      At(h, r, i) in qs && Msg(r, h.rounds[r].req) in qs[At(h, r, i)]
  }

  // Whatever a process has seen was handed to it.
  ghost predicate Earned(h: History) {
    forall r: nat, i: nat ::
      Vis(h, r, i) && i > 0 && At(h, r, i) in h.clock && r < h.clock[At(h, r, i)] ==> Arrived(h, r, i)
  }

  // A process is handed the requests that concern it in the order they were issued.
  ghost predicate InOrder(h: History) {
    forall r: nat, i: nat, r': nat, i': nat ::
      r' < r && Arrived(h, r, i) && Vis(h, r', i') && i' > 0 && At(h, r, i) == At(h, r', i') ==> Arrived(h, r', i')
  }

  // Request r leaves the network different from how it found it.
  ghost predicate Changes(h: History, r: nat)
    requires r < Now(h) && |h.nets| == Now(h) + 1
  {
    h.nets[r] != h.nets[r + 1]
  }

  // Every request before t that changed the network has been carried out, except for creates: those
  // only ever attach.
  ghost predicate Settled(h: History, t: int)
    requires |h.nets| == Now(h) + 1
  {
    forall r: nat, x {:trigger IsActor(h, r, x)} ::
      r < t && r < Now(h) && IsActor(h, r, x) && Changes(h, r) && !h.rounds[r].req.cmd.Create? ==>
        x in h.clock && r < h.clock[x]
  }

  ghost predicate TimeInv(h: History, net: Net) {
    && Chain(h) && Clocks(h) && Synced(h, net) && 0 in net
    && InOrder(h) && Earned(h) && Settled(h, Now(h) - 1)
  }

  ghost predicate MailInv(h: History, net: Net, qs: Queues) {
    qs.Keys == net.Keys - {0} && QueuesSound(h, qs) && QueuesComplete(h, qs)
  }

  ghost predicate FloodInv(h: History, net: Net, qs: Queues) {
    TimeInv(h, net) && MailInv(h, net, qs)
  }

  // ---- The history seen from one process ----

  lemma RoundKeeps(n: Net, rd: Round, n': Net, x: int)
    requires ProperRound(n, rd, n') && x != 0 && x in n
    requires n != n' ==> rd.a >= |rd.c| || rd.c[rd.a].main != x
    ensures x in n' && n'[x] == n[x]
  {
  }

  // A process that does not act in [t, u) is the same at u as at t.
  lemma {:induction false} Unchanged(h: History, x: int, t: nat, u: nat)
    requires Chain(h) && t <= u <= Now(h) && x != 0 && x in h.nets[t]
    requires forall r: nat {:trigger IsActor(h, r, x)} :: t <= r < u && Changes(h, r) ==> !IsActor(h, r, x)
    ensures x in h.nets[u] && h.nets[u][x] == h.nets[t][x]
    decreases u
  {
    if t < u {
      Unchanged(h, x, t, u - 1);
      assert RoundOk(h, u - 1) && (Changes(h, u - 1) ==> !IsActor(h, u - 1, x));
      RoundKeeps(h.nets[u - 1], h.rounds[u - 1], h.nets[u], x);
    }
  }

  // A process known at u was already there at its own time.
  lemma {:induction false} KnownSince(h: History, x: int, u: nat)
    requires Chain(h) && Clocks(h) && u <= Now(h) && x in h.nets[u] && h.clock[x] <= u
    ensures x in h.nets[h.clock[x]]
    decreases u
  {
    if h.clock[x] < u {
      assert !Starts(h, u - 1, x);
      KnownSince(h, x, u - 1);
    }
  }

  lemma ActorIsVisited(h: History, r: nat, x: int)
    requires Chain(h) && r < Now(h) && IsActor(h, r, x) && x != 0
    ensures Vis(h, r, h.rounds[r].a) && h.rounds[r].a > 0
  {
    TargetVisited(h.rounds[r].a);
    assert RoundOk(h, r);
  }

  // A request x has to act on, older than one already handed to x, waits in x's inbox.
  lemma OlderActionWaits(h: History, qs: Queues, x: int, u: nat, r: nat, i: nat)
    requires Chain(h) && Clocks(h) && QueuesComplete(h, qs) && InOrder(h)
    requires x != 0 && u < Now(h) && IsActor(h, u, x) && x in h.clock && h.clock[x] <= u
    requires Arrived(h, r, i) && At(h, r, i) == x
    ensures r <= u || (x in qs && Msg(u, h.rounds[u].req) in qs[x])
  {
    ActorIsVisited(h, u, x);
    if u < r {
      assert Arrived(h, u, h.rounds[u].a);
    }
  }

  lemma HeadActionsPast(h: History, qs: Queues, x: int, r: nat, i: nat)
    requires Chain(h) && Clocks(h) && QueuesComplete(h, qs) && InOrder(h)
    requires x in qs && qs[x] != [] && InboxSound(h, x, qs[x]) && r == qs[x][0].uuid && x != 0
    requires Arrived(h, r, i) && At(h, r, i) == x
    ensures forall u: nat :: x in h.clock && h.clock[x] <= u < Now(h) && IsActor(h, u, x) ==> r <= u
  {
    forall u: nat | x in h.clock && h.clock[x] <= u < Now(h) && IsActor(h, u, x)
      ensures r <= u
    {
      OlderActionWaits(h, qs, x, u, r, i);
    }
  }

  // If the head of x's inbox is request r, then x is exactly as request r finds it.
  lemma HeadFindsProcess(h: History, net: Net, qs: Queues, x: int) returns (i: nat)
    requires FloodInv(h, net, qs) && x in qs && qs[x] != []
    ensures var r := qs[x][0].uuid; r < Now(h) && Arrived(h, r, i) && At(h, r, i) == x
    ensures var r := qs[x][0].uuid; x in h.nets[r] && net[x] == h.nets[r][x]
  {
    var r := qs[x][0].uuid;
    assert InboxSound(h, x, qs[x]) && InboxEntry(h, x, qs[x][0]);
    i :| Arrived(h, r, i) && At(h, r, i) == x;
    HeadActionsPast(h, qs, x, r, i);
    Unchanged(h, x, h.clock[x], r);
  }

  // ---- One delivery ----

  function Seen(h: History, x: int, r: nat): History { h.(clock := h.clock[x := r + 1]) }

  lemma {:induction false} AllUnderRoot(i: nat)
    ensures Under(0, i)
  {
    if i > 0 {
      AllUnderRoot(Parent(i));
    }
  }

  lemma ArrivedIsFlood(h: History, r: nat, i: nat)
    requires Chain(h) && Arrived(h, r, i)
    ensures h.rounds[r].a != 0 && ProperFlood(h.nets[r], h.rounds[r], h.nets[r + 1])
    ensures Vis(h, r, Parent(i)) && Parent(i) != h.rounds[r].a
  {
    AllUnderRoot(Parent(i));
    VisitedStep(h.rounds[r].a, i);
    assert RoundOk(h, r);
  }

  lemma VisIsFlood(h: History, r: nat, i: nat)
    requires Chain(h) && Vis(h, r, i) && i > 0
    ensures h.rounds[r].a != 0 && ProperFlood(h.nets[r], h.rounds[r], h.nets[r + 1])
    ensures Vis(h, r, Parent(i)) && Parent(i) != h.rounds[r].a
    ensures At(h, r, i) != 0 && At(h, r, i) != At(h, r, Parent(i))
    ensures At(h, r, i) in h.nets[r] && At(h, r, Parent(i)) in h.nets[r]
  {
    AllUnderRoot(Parent(i));
    VisitedStep(h.rounds[r].a, i);
    assert RoundOk(h, r);
    assert Intact(h.nets[r], h.rounds[r], i) && Intact(h.nets[r], h.rounds[r], Parent(i));
  }

  ghost predicate PointsAt(n: Net, x: int, y: int) {
    x in n && (n[x].slots.left.main == y || n[x].slots.right.main == y)
  }

  lemma ParentPoints(h: History, r: nat, i: nat)
    requires Chain(h) && Vis(h, r, i) && i > 0
    ensures PointsAt(h.nets[r], At(h, r, Parent(i)), At(h, r, i))
  {
    VisIsFlood(h, r, i);
    assert Intact(h.nets[r], h.rounds[r], Parent(i));
    assert i == 2 * Parent(i) + 1 || i == 2 * Parent(i) + 2;
  }

  // A create attaches, and takes nothing away.
  lemma CreateKeepsPointing(n: Net, rd: Round, n': Net, x: int, y: int)
    requires ProperRound(n, rd, n') && x != 0 && y != 0 && PointsAt(n, x, y)
    requires rd.a < |rd.c| && rd.c[rd.a].main == x && rd.req.cmd.Create?
    ensures PointsAt(n', x, y)
  {
    assert SlotsFit(n, rd.c, rd.a);
  }

  // While x does nothing but create, it goes on pointing at y.
  lemma {:induction false} KeepsPointing(h: History, x: int, y: int, t: nat, u: nat)
    requires Chain(h) && t <= u <= Now(h) && x != 0 && y != 0 && PointsAt(h.nets[t], x, y)
    requires forall r: nat {:trigger IsActor(h, r, x)} ::
               t <= r < u && IsActor(h, r, x) && Changes(h, r) ==> h.rounds[r].req.cmd.Create?
    ensures PointsAt(h.nets[u], x, y)
    decreases u
  {
    if t < u {
      KeepsPointing(h, x, y, t, u - 1);
      assert RoundOk(h, u - 1);
      if IsActor(h, u - 1, x) && Changes(h, u - 1) {
        CreateKeepsPointing(h.nets[u - 1], h.rounds[u - 1], h.nets[u], x, y);
      } else {
        RoundKeeps(h.nets[u - 1], h.rounds[u - 1], h.nets[u], x);
      }
    }
  }

  // If two requests reach y through different parents, the older parent has already passed
  // the older request on: y was moved in between, and moves wait for their answer.
  lemma FormerParentIsDone(h: History, r: nat, i: nat, r': nat, i': nat)
    requires Chain(h) && Clocks(h) && Settled(h, Now(h) - 1)
    requires r' < r && Vis(h, r, i) && Vis(h, r', i') && i > 0 && i' > 0 && At(h, r, i) == At(h, r', i')
    ensures At(h, r', Parent(i')) in h.clock
    ensures r' < h.clock[At(h, r', Parent(i'))] || At(h, r', Parent(i')) == At(h, r, Parent(i))
  {
    var x := At(h, r', Parent(i'));
    ParentPoints(h, r', i');
    assert x in h.clock;
    if x != 0 && h.clock[x] <= r' {
      VisIsFlood(h, r', i');
      KeepsPointing(h, x, At(h, r, i), r', r);
      OnlyParentPoints(h, r, i, x);
    }
  }

  lemma OnlyParentPoints(h: History, r: nat, i: nat, x: int)
    requires Chain(h) && Vis(h, r, i) && i > 0 && PointsAt(h.nets[r], x, At(h, r, i))
    ensures x == At(h, r, Parent(i))
  {
    VisIsFlood(h, r, i);
    LinkedOnlyFromParent(h.nets[r], h.rounds[r].c, x, i);
  }

  // A slot that points at layout entry i belongs to the entry's parent.
  lemma LinkedOnlyFromParent(n: Net, c: seq<Peer>, x: int, i: nat)
    requires GoodLayout(c) && LinksFollow(n, c) && 0 < i < |c| && x in n
    requires n[x].slots.left.main == c[i].main || n[x].slots.right.main == c[i].main
    ensures x == c[Parent(i)].main
  {
    assert c[i].main != 0;
    assert Listed(c, x);
    var j: nat :| j < |c| && c[j].main == x;
    assert SlotsFit(n, c, j);
    var k := if n[x].slots.left.main == c[i].main then 2 * j + 1 else 2 * j + 2;
    assert Kid(c, k).main == c[i].main;
    assert k == i;
  }

  // Request r, standing at index i of its layout, is the next thing x deals with.
  ghost predicate Facing(h: History, net: Net, x: int, r: nat, i: nat)
    requires |h.nets| == Now(h) + 1
  {
    && Arrived(h, r, i) && At(h, r, i) == x && x in h.clock && h.clock[x] <= r && x in net && x != 0
    && (forall u: nat, j: nat :: Arrived(h, u, j) && At(h, u, j) == x && h.clock[x] <= u ==> r <= u)
    && var rd := h.rounds[r];
    && x in h.nets[r] && net[x] == h.nets[r][x] && net[x].self == rd.c[i]
    && if i == rd.a then
         React(net[x].self.id, net[x].slots, rd.req).Act? && h.nets[r + 1] == Effect(h.nets[r], x, rd.req)
       else
         && net[x].slots == Kids(rd.c, i) && React(net[x].self.id, net[x].slots, rd.req).Forward?
         && x in h.nets[r + 1] && h.nets[r + 1][x] == net[x]
  }

  lemma HeadIsOldest(h: History, qs: Queues, x: int, u: nat, j: nat)
    requires QueuesComplete(h, qs) && x in qs && qs[x] != [] && x in h.clock
    requires forall j, k :: 0 <= j < k < |qs[x]| ==> qs[x][j].uuid < qs[x][k].uuid
    requires Arrived(h, u, j) && At(h, u, j) == x && h.clock[x] <= u
    ensures qs[x][0].uuid <= u
  {
  }

  lemma HeadIsFaced(h: History, net: Net, qs: Queues, x: int) returns (i: nat)
    requires FloodInv(h, net, qs) && x in qs && qs[x] != []
    ensures Facing(h, net, x, qs[x][0].uuid, i)
    ensures var r := qs[x][0].uuid; r < Now(h) && qs[x][0].req == h.rounds[r].req
  {
    i := HeadFindsProcess(h, net, qs, x);
    var r := qs[x][0].uuid;
    assert InboxSound(h, x, qs[x]) && InboxEntry(h, x, qs[x][0]);
    ArrivedIsFlood(h, r, i);
    assert RoundOk(h, r) && Intact(h.nets[r], h.rounds[r], i);
    if i != h.rounds[r].a {
      RoundKeeps(h.nets[r], h.rounds[r], h.nets[r + 1], x);
    }
    forall u: nat, j: nat | Arrived(h, u, j) && At(h, u, j) == x && h.clock[x] <= u
      ensures r <= u
    {
      HeadIsOldest(h, qs, x, u, j);
    }
  }

  // Delivering request r to x hands it to x's children, and hands over nothing else.
  lemma NewlyArrived(h: History, net: Net, x: int, r: nat, i: nat, r2: nat, i2: nat)
    requires Chain(h) && InOrder(h) && Facing(h, net, x, r, i)
    requires Arrived(Seen(h, x, r), r2, i2) && !Arrived(h, r2, i2)
    ensures r2 == r && Parent(i2) == i
  {
    assert Vis(h, r2, i2);
    VisIsFlood(h, r2, i2);
    var p := Parent(i2);
    assert At(h, r2, p) == x;
    assert r2 < r ==> Arrived(h, r2, p);
  }

  lemma StillArrived(h: History, x: int, r: nat, r2: nat, i2: nat)
    requires Arrived(h, r2, i2) && (x in h.clock ==> h.clock[x] <= r)
    ensures Arrived(Seen(h, x, r), r2, i2)
  {
  }

  lemma SeenClocks(h: History, net: Net, x: int, r: nat, i: nat)
    requires Chain(h) && Clocks(h) && Facing(h, net, x, r, i)
    ensures Chain(Seen(h, x, r)) && Clocks(Seen(h, x, r))
  {
    var h' := Seen(h, x, r);
    assert forall u: nat :: u < Now(h) ==> RoundOk(h, u) && RoundOk(h', u);
    forall u: nat, y | Starts(h', u, y) && y in h'.clock
      ensures u + 1 <= h'.clock[y]
    {
      assert Starts(h, u, y);
    }
  }

  lemma SeenInOrderAt(h: History, net: Net, x: int, r: nat, i: nat, r2: nat, i2: nat, r': nat, i': nat)
    requires Chain(h) && Clocks(h) && InOrder(h) && Settled(h, Now(h) - 1) && Facing(h, net, x, r, i)
    requires r' < r2 && Arrived(Seen(h, x, r), r2, i2) && Vis(h, r', i') && i' > 0 && At(h, r2, i2) == At(h, r', i')
    ensures Arrived(Seen(h, x, r), r', i')
  {
    if Arrived(h, r2, i2) {
      StillArrived(h, x, r, r', i');
    } else {
      NewlyArrived(h, net, x, r, i, r2, i2);
      FormerParentIsDone(h, r2, i2, r', i');
    }
  }

  lemma SeenInOrder(h: History, net: Net, x: int, r: nat, i: nat)
    requires Chain(h) && Clocks(h) && InOrder(h) && Settled(h, Now(h) - 1) && Facing(h, net, x, r, i)
    ensures InOrder(Seen(h, x, r))
  {
    var h' := Seen(h, x, r);
    forall r2: nat, i2: nat, r': nat, i': nat |
      r' < r2 && Arrived(h', r2, i2) && Vis(h', r', i') && i' > 0 && At(h', r2, i2) == At(h', r', i')
      ensures Arrived(h', r', i')
    {
      assert Vis(h, r', i');
      SeenInOrderAt(h, net, x, r, i, r2, i2, r', i');
    }
  }

  lemma SeenSettled(h: History, x: int, r: nat, t: int)
    requires |h.nets| == Now(h) + 1 && Settled(h, t) && x in h.clock && h.clock[x] <= r
    ensures Settled(Seen(h, x, r), t)
  {
    var h' := Seen(h, x, r);
    forall u: nat, y | u < t && u < Now(h') && IsActor(h', u, y) && Changes(h', u) && !h'.rounds[u].req.cmd.Create?
      ensures y in h'.clock && u < h'.clock[y]
    {
      assert IsActor(h, u, y);
    }
  }

  lemma SeenEarned(h: History, net: Net, x: int, r: nat, i: nat)
    requires Chain(h) && Clocks(h) && InOrder(h) && Earned(h) && Facing(h, net, x, r, i)
    ensures Earned(Seen(h, x, r))
  {
    var h' := Seen(h, x, r);
    forall u: nat, j: nat | Vis(h', u, j) && j > 0 && At(h', u, j) in h'.clock && u < h'.clock[At(h', u, j)]
      ensures Arrived(h', u, j)
    {
      assert Vis(h, u, j);
      if u == r && At(h, u, j) == x {
        VisIsFlood(h, r, i);
        assert j == i;
      }
      assert Arrived(h, u, j);
      StillArrived(h, x, r, u, j);
    }
  }

  // ---- The inboxes after one delivery ----

  // The child at index j of a forwarding node has not had request r before, only older ones.
  lemma ChildIsReady(h: History, net: Net, x: int, r: nat, i: nat, j: nat)
    requires Chain(h) && Clocks(h) && Earned(h) && Facing(h, net, x, r, i)
    requires i != h.rounds[r].a && j < |h.rounds[r].c| && j > 0 && Parent(j) == i
    ensures var y := At(h, r, j);
            y != x && y != 0 && y in h.nets[r] && y in h.clock && h.clock[y] <= r
            && Arrived(Seen(h, x, r), r, j) && !Arrived(h, r, j)
  {
    VisitedStep(h.rounds[r].a, j);
    VisIsFlood(h, r, j);
  }

  lemma ChildHasOlder(h: History, net: Net, x: int, r: nat, i: nat, j: nat, u: nat, k: nat)
    requires Chain(h) && Clocks(h) && InOrder(h) && Earned(h) && Facing(h, net, x, r, i)
    requires i != h.rounds[r].a && j < |h.rounds[r].c| && j > 0 && Parent(j) == i
    requires Arrived(h, u, k) && At(h, u, k) == At(h, r, j)
    ensures u < r
  {
    ChildIsReady(h, net, x, r, i, j);
    ArrivedIsFlood(h, r, i);
    assert u == r ==> k == j;
    assert Vis(h, r, j);
  }

  // What PushBoth does to each inbox.
  function Pushed(s: Slots, y: int): bool { y != 0 && (y == s.left.main || y == s.right.main) }

  lemma PushBothByInbox(qs: Queues, s: Slots, m: Msg)
    requires s.left.main == s.right.main ==> s.left.main == 0
    ensures var q2 := PushBoth(qs, s, m);
            q2.Keys == qs.Keys
            && forall y :: y in qs ==> q2[y] == if Pushed(s, y) then qs[y] + [m] else qs[y]
  {
  }

  // The slots of index i name its children, if it has any.
  lemma KidAt(c: seq<Peer>, i: nat, y: int) returns (j: nat)
    requires GoodLayout(c) && i < |c| && Pushed(Kids(c, i), y)
    ensures 0 < j < |c| && Parent(j) == i && c[j].main == y
  {
    j := if y == Kid(c, 2 * i + 1).main then 2 * i + 1 else 2 * i + 2;
  }

  lemma KidsDiffer(c: seq<Peer>, i: nat)
    requires GoodLayout(c) && i < |c|
    ensures Kids(c, i).left.main == Kids(c, i).right.main ==> Kids(c, i).left.main == 0
  {
  }

  lemma EntrySurvives(h: History, x: int, r: nat, y: int, m: Msg)
    requires InboxEntry(h, y, m) && (x in h.clock ==> h.clock[x] <= r) && (x == y ==> r < m.uuid)
    ensures InboxEntry(Seen(h, x, r), y, m)
  {
    var i: nat :| Arrived(h, m.uuid, i) && At(h, m.uuid, i) == y;
    StillArrived(h, x, r, m.uuid, i);
  }

  // Each inbox after the delivery: x has lost its head, x's children have gained it.
  lemma InboxAfter(h: History, net: Net, qs: Queues, x: int, custom: bool, i: nat)
    requires Chain(h) && x in qs && qs[x] != [] && Facing(h, net, x, qs[x][0].uuid, i)
    requires qs[x][0].req == h.rounds[qs[x][0].uuid].req
    ensures var r := qs[x][0].uuid;
            var rest, d := qs[x := qs[x][1..]], Deliver(net, qs, x, custom);
            if i == h.rounds[r].a then
              d.queues == (if x in d.net then rest else qs - {x})
              && d.net == Effect(net, x, h.rounds[r].req)
            else
              d.net == net && d.queues.Keys == qs.Keys
              && forall y :: y in qs ==>
                   d.queues[y] == if Pushed(Kids(h.rounds[r].c, i), y) then rest[y] + [qs[x][0]] else rest[y]
  {
    ArrivedIsFlood(h, qs[x][0].uuid, i);
    KidsDiffer(h.rounds[qs[x][0].uuid].c, i);
    PushBothByInbox(qs[x := qs[x][1..]], Kids(h.rounds[qs[x][0].uuid].c, i), qs[x][0]);
  }

  lemma RestSound(h: History, qs: Queues, x: int, y: int)
    requires x in qs && y in qs && qs[x] != []
    requires InboxSound(h, x, qs[x]) && InboxSound(h, y, qs[y])
    ensures InboxSound(Seen(h, x, qs[x][0].uuid), y, qs[x := qs[x][1..]][y])
  {
    var r := qs[x][0].uuid;
    var q := qs[x := qs[x][1..]][y];
    assert InboxEntry(h, x, qs[x][0]);
    forall k | 0 <= k < |q|
      ensures InboxEntry(Seen(h, x, r), y, q[k])
    {
      assert q[k] == if y == x then qs[y][k + 1] else qs[y][k];
      EntrySurvives(h, x, r, y, q[k]);
    }
  }

  lemma {:induction false} PushSound(h: History, net: Net, x: int, r: nat, i: nat, j: nat, q: seq<Msg>, m: Msg)
    requires Chain(h) && Clocks(h) && InOrder(h) && Earned(h) && Facing(h, net, x, r, i)
    requires i != h.rounds[r].a && j < |h.rounds[r].c| && j > 0 && Parent(j) == i
    requires InboxSound(h, At(h, r, j), q) && InboxSound(Seen(h, x, r), At(h, r, j), q)
    requires m == Msg(r, h.rounds[r].req)
    ensures InboxSound(Seen(h, x, r), At(h, r, j), q + [m])
  {
    var y := At(h, r, j);
    ChildIsReady(h, net, x, r, i, j);
    assert InboxEntry(Seen(h, x, r), y, m);
    forall k | 0 <= k < |q|
      ensures q[k].uuid < r
    {
      assert InboxEntry(h, y, q[k]);
      var l: nat :| Arrived(h, q[k].uuid, l) && At(h, q[k].uuid, l) == y;
      ChildHasOlder(h, net, x, r, i, j, q[k].uuid, l);
    }
  }

  lemma DeliverSound(h: History, net: Net, qs: Queues, x: int, custom: bool, i: nat)
    requires Chain(h) && Clocks(h) && InOrder(h) && Earned(h) && x in qs && qs[x] != []
    requires QueuesSound(h, qs) && Facing(h, net, x, qs[x][0].uuid, i)
    ensures QueuesSound(Seen(h, x, qs[x][0].uuid), Deliver(net, qs, x, custom).queues)
  {
    var r := qs[x][0].uuid;
    var q2 := Deliver(net, qs, x, custom).queues;
    assert InboxSound(h, x, qs[x]) && InboxEntry(h, x, qs[x][0]);
    InboxAfter(h, net, qs, x, custom, i);
    forall y | y in q2
      ensures InboxSound(Seen(h, x, r), y, q2[y])
    {
      RestSound(h, qs, x, y);
      if i != h.rounds[r].a && Pushed(Kids(h.rounds[r].c, i), y) {
        ArrivedIsFlood(h, r, i);
        var j := KidAt(h.rounds[r].c, i, y);
        ChildIsReady(h, net, x, r, i, j);
        PushSound(h, net, x, r, i, j, qs[y], qs[x][0]);
      }
    }
  }

  // Nothing is lost on the way to x's children ...
  lemma ChildIsListening(h: History, net: Net, x: int, r: nat, i: nat, j: nat)
    requires Chain(h) && Clocks(h) && Synced(h, net) && Earned(h) && Facing(h, net, x, r, i)
    requires i != h.rounds[r].a && j < |h.rounds[r].c| && j > 0 && Parent(j) == i
    ensures At(h, r, j) in net && At(h, r, j) != 0
  {
    ChildIsReady(h, net, x, r, i, j);
    KnownSince(h, At(h, r, j), r);
  }

  lemma NewArrivalQueued(h: History, net: Net, qs: Queues, x: int, custom: bool, i: nat, u: nat, j: nat)
    requires Chain(h) && Clocks(h) && Synced(h, net) && InOrder(h) && Earned(h) && x in qs && qs[x] != []
    requires Facing(h, net, x, qs[x][0].uuid, i) && qs.Keys == net.Keys - {0}
    requires qs[x][0] == Msg(qs[x][0].uuid, h.rounds[qs[x][0].uuid].req)
    requires Arrived(Seen(h, x, qs[x][0].uuid), u, j) && !Arrived(h, u, j)
    ensures var y, q2 := At(h, u, j), Deliver(net, qs, x, custom).queues;
            y in q2 && Msg(u, h.rounds[u].req) in q2[y]
  {
    var r := qs[x][0].uuid;
    NewlyArrived(h, net, x, r, i, u, j);
    assert Vis(h, u, j);
    VisIsFlood(h, u, j);
    ChildIsListening(h, net, x, r, i, j);
    NewArrivalPushed(h, net, qs, x, custom, i, j);
  }

  lemma NewArrivalPushed(h: History, net: Net, qs: Queues, x: int, custom: bool, i: nat, j: nat)
    requires Chain(h) && x in qs && qs[x] != []
    requires Facing(h, net, x, qs[x][0].uuid, i)
    requires qs[x][0] == Msg(qs[x][0].uuid, h.rounds[qs[x][0].uuid].req)
    requires i != h.rounds[qs[x][0].uuid].a && j < |h.rounds[qs[x][0].uuid].c| && j > 0 && Parent(j) == i
    requires At(h, qs[x][0].uuid, j) in qs && At(h, qs[x][0].uuid, j) != 0
    ensures var y, q2 := At(h, qs[x][0].uuid, j), Deliver(net, qs, x, custom).queues;
            y in q2 && qs[x][0] in q2[y]
  {
    InboxAfter(h, net, qs, x, custom, i);
    assert Pushed(Kids(h.rounds[qs[x][0].uuid].c, i), At(h, qs[x][0].uuid, j));
  }

  // ... and nothing that was waiting elsewhere, or behind the head, disappears.
  // x cannot have gone if a later request is to reach it.
  lemma StaysForLater(h: History, net: Net, x: int, r: nat, i: nat, u: nat, j: nat)
    requires Chain(h) && Clocks(h) && Facing(h, net, x, r, i)
    requires Vis(h, u, j) && j > 0 && At(h, u, j) == x && r < u
    ensures x in h.nets[r + 1]
  {
    VisIsFlood(h, u, j);
    SeenClocks(h, net, x, r, i);
    KnownSince(Seen(h, x, r), x, u);
  }

  lemma OldArrivalQueued(h: History, net: Net, qs: Queues, x: int, custom: bool, i: nat, u: nat, j: nat)
    requires Chain(h) && Clocks(h) && x in qs && qs[x] != []
    requires Facing(h, net, x, qs[x][0].uuid, i)
    requires qs[x][0] == Msg(qs[x][0].uuid, h.rounds[qs[x][0].uuid].req)
    requires Arrived(h, u, j) && Vis(h, u, j) && At(h, u, j) in h.clock
    requires Seen(h, x, qs[x][0].uuid).clock[At(h, u, j)] <= u
    requires At(h, u, j) in qs && Msg(u, h.rounds[u].req) in qs[At(h, u, j)]
    ensures var y, q2 := At(h, u, j), Deliver(net, qs, x, custom).queues;
            y in q2 && Msg(u, h.rounds[u].req) in q2[y]
  {
    var r := qs[x][0].uuid;
    if At(h, u, j) == x {
      StaysForLater(h, net, x, r, i, u, j);
      var k :| 0 <= k < |qs[x]| && qs[x][k] == Msg(u, h.rounds[u].req);
      assert qs[x][1..][k - 1] == qs[x][k];
    }
    InboxAfter(h, net, qs, x, custom, i);
  }

  lemma DeliverComplete(h: History, net: Net, qs: Queues, x: int, custom: bool, i: nat)
    requires Chain(h) && Clocks(h) && Synced(h, net) && InOrder(h) && Earned(h) && x in qs && qs[x] != []
    requires QueuesComplete(h, qs) && Facing(h, net, x, qs[x][0].uuid, i) && qs.Keys == net.Keys - {0}
    requires qs[x][0] == Msg(qs[x][0].uuid, h.rounds[qs[x][0].uuid].req)
    ensures QueuesComplete(Seen(h, x, qs[x][0].uuid), Deliver(net, qs, x, custom).queues)
  {
    var h', q2 := Seen(h, x, qs[x][0].uuid), Deliver(net, qs, x, custom).queues;
    forall u: nat, j: nat | Arrived(h', u, j) && At(h', u, j) in h'.clock && h'.clock[At(h', u, j)] <= u
      ensures At(h', u, j) in q2 && Msg(u, h'.rounds[u].req) in q2[At(h', u, j)]
    {
      if Arrived(h, u, j) {
        OldArrivalQueued(h, net, qs, x, custom, i, u, j);
      } else {
        NewArrivalQueued(h, net, qs, x, custom, i, u, j);
      }
    }
  }

  // x has caught up with round r + 1, and nothing else has moved.
  lemma SyncedMoves(h: History, net: Net, net': Net, x: int, r: nat)
    requires |h.nets| == Now(h) + 1 && Clocks(h) && Synced(h, net)
    requires |Seen(h, x, r).nets| == Now(Seen(h, x, r)) + 1 && Clocks(Seen(h, x, r)) && r < Now(h) && x in h.clock
    requires forall y :: y != x ==> (y in net' <==> y in net) && (y in net' ==> net'[y] == net[y])
    requires (x in net' <==> x in h.nets[r + 1]) && (x in net' ==> net'[x] == h.nets[r + 1][x])
    ensures Synced(Seen(h, x, r), net')
  {
    hide Clocks;
  }

  lemma DeliverSynced(h: History, net: Net, qs: Queues, x: int, custom: bool, i: nat)
    requires Chain(h) && Clocks(h) && Synced(h, net) && x in qs && qs[x] != []
    requires Facing(h, net, x, qs[x][0].uuid, i) && qs.Keys == net.Keys - {0} && 0 in net
    requires qs[x][0] == Msg(qs[x][0].uuid, h.rounds[qs[x][0].uuid].req)
    ensures var d, h' := Deliver(net, qs, x, custom), Seen(h, x, qs[x][0].uuid);
            Clocks(h') && Synced(h', d.net) && d.queues.Keys == d.net.Keys - {0} && 0 in d.net
  {
    hide Clocks, Synced, Deliver;
    var r, d := qs[x][0].uuid, Deliver(net, qs, x, custom);
    SeenClocks(h, net, x, r, i);
    InboxAfter(h, net, qs, x, custom, i);
    SyncedMoves(h, net, d.net, x, r);
  }

  // Any process taking any of its pending requests leads from one consistent state to another.
  lemma DeliverKeepsInv(h: History, net: Net, qs: Queues, x: int, custom: bool) returns (i: nat)
    requires FloodInv(h, net, qs) && x in qs && qs[x] != []
    ensures Facing(h, net, x, qs[x][0].uuid, i) && qs[x][0] == Msg(qs[x][0].uuid, h.rounds[qs[x][0].uuid].req)
    ensures var d := Deliver(net, qs, x, custom); FloodInv(Seen(h, x, qs[x][0].uuid), d.net, d.queues)
  {
    i := HeadIsFaced(h, net, qs, x);
    var r := qs[x][0].uuid;
    var h', d := Seen(h, x, r), Deliver(net, qs, x, custom);
    assert Chain(h') && Clocks(h') by { SeenClocks(h, net, x, r, i); }
    assert InOrder(h') by { SeenInOrder(h, net, x, r, i); }
    assert Earned(h') by { SeenEarned(h, net, x, r, i); }
    assert Synced(h', d.net) && d.queues.Keys == d.net.Keys - {0} && 0 in d.net by {
      DeliverSynced(h, net, qs, x, custom, i);
    }
    assert QueuesSound(h', d.queues) by { DeliverSound(h, net, qs, x, custom, i); }
    assert QueuesComplete(h', d.queues) by { DeliverComplete(h, net, qs, x, custom, i); }
    assert Settled(h', Now(h') - 1) by { SeenSettled(h, x, r, Now(h) - 1); }
  }

  // ---- A new entry in the history: a request is sent, or the controller acts by itself ----

  function Extend(h: History, rd: Round, n': Net, started: set<int>): History {
    History(h.rounds + [rd], h.nets + [n'],
            map x | x in h.clock.Keys + started + {0} :: if x == 0 || x in started || x !in h.clock then Now(h) + 1
              else h.clock[x])
  }

  // Every new process has a port never used before, and exists from now on.
  ghost predicate FreshStart(h: History, n': Net, started: set<int>)
    requires |h.nets| == Now(h) + 1
  {
    started !! h.clock.Keys && n'.Keys <= h.nets[Now(h)].Keys + started
  }

  lemma ExtendVis(h: History, rd: Round, n': Net, started: set<int>, r: nat, i: nat)
    requires r < Now(h)
    ensures Vis(Extend(h, rd, n', started), r, i) == Vis(h, r, i)
    ensures i < |h.rounds[r].c| ==> At(Extend(h, rd, n', started), r, i) == At(h, r, i)
  {
  }

  lemma ExtendArrived(h: History, rd: Round, n': Net, started: set<int>, r: nat, i: nat)
    requires Chain(h) && Clocks(h) && r < Now(h) && started !! h.clock.Keys
    ensures Arrived(Extend(h, rd, n', started), r, i) <==> Arrived(h, r, i)
  {
    var h' := Extend(h, rd, n', started);
    ExtendVis(h, rd, n', started, r, i);
    if Vis(h, r, i) && i > 0 {
      VisIsFlood(h, r, i);
      assert At(h, r, Parent(i)) in h.clock;
    }
  }

  lemma ExtendChain(h: History, rd: Round, n': Net, started: set<int>)
    requires Chain(h) && ProperRound(h.nets[Now(h)], rd, n') && 0 in n'
    ensures Chain(Extend(h, rd, n', started))
  {
    var h' := Extend(h, rd, n', started);
    forall r | 0 <= r < Now(h')
      ensures RoundOk(h', r)
    {
      if r < Now(h) {
        assert RoundOk(h, r);
      }
    }
  }

  lemma ExtendClocks(h: History, rd: Round, n': Net, started: set<int>)
    requires Chain(h) && Clocks(h) && FreshStart(h, n', started) && 0 !in started
    ensures Clocks(Extend(h, rd, n', started))
  {
    var h' := Extend(h, rd, n', started);
    forall r, x | 0 <= r <= Now(h') && x in h'.nets[r]
      ensures x in h'.clock
    {
      assert r <= Now(h) ==> x in h.nets[r];
      assert r == Now(h') ==> x in started || x in h.nets[Now(h)];
    }
    forall u: nat, x | Starts(h', u, x) && x in h'.clock
      ensures u + 1 <= h'.clock[x]
    {
      if u < Now(h) {
        assert Starts(h, u, x);
      }
    }
  }

  lemma ExtendInOrder(h: History, rd: Round, n': Net, started: set<int>)
    requires Chain(h) && Clocks(h) && InOrder(h) && Settled(h, Now(h)) && started !! h.clock.Keys
    requires var h' := Extend(h, rd, n', started); Chain(h') && Clocks(h')
    ensures InOrder(Extend(h, rd, n', started))
  {
    var h' := Extend(h, rd, n', started);
    forall r: nat, i: nat, r': nat, i': nat |
      r' < r && Arrived(h', r, i) && Vis(h', r', i') && i' > 0 && At(h', r, i) == At(h', r', i')
      ensures Arrived(h', r', i')
    {
      ExtendVis(h, rd, n', started, r', i');
      ExtendArrived(h, rd, n', started, r', i');
      if r < Now(h) {
        ExtendArrived(h, rd, n', started, r, i);
        assert Vis(h, r', i');
      } else {
        ExtendSettled(h, rd, n', started);
        assert Vis(h', r, i);
        FormerParentIsDone(h', r, i, r', i');
      }
    }
  }

  lemma ExtendSettled(h: History, rd: Round, n': Net, started: set<int>)
    requires |h.nets| == Now(h) + 1 && Settled(h, Now(h)) && started !! h.clock.Keys
    ensures Settled(Extend(h, rd, n', started), Now(h))
  {
    var h' := Extend(h, rd, n', started);
    forall u: nat, y | u < Now(h) && u < Now(h') && IsActor(h', u, y) && Changes(h', u) && !h'.rounds[u].req.cmd.Create?
      ensures y in h'.clock && u < h'.clock[y]
    {
      assert IsActor(h, u, y);
    }
  }

  lemma ExtendEarned(h: History, rd: Round, n': Net, started: set<int>)
    requires Chain(h) && Clocks(h) && Earned(h) && started !! h.clock.Keys
    requires var h' := Extend(h, rd, n', started); Chain(h') && Clocks(h')
    ensures Earned(Extend(h, rd, n', started))
  {
    var h' := Extend(h, rd, n', started);
    forall u: nat, j: nat | Vis(h', u, j) && j > 0 && At(h', u, j) in h'.clock && u < h'.clock[At(h', u, j)]
      ensures Arrived(h', u, j)
    {
      VisIsFlood(h', u, j);
      if u < Now(h) {
        ExtendVis(h, rd, n', started, u, j);
        ExtendArrived(h, rd, n', started, u, j);
        assert Vis(h, u, j);
        VisIsFlood(h, u, j);
      }
    }
  }

  lemma ExtendEntry(h: History, rd: Round, n': Net, started: set<int>, x: int, m: Msg)
    requires Chain(h) && Clocks(h) && started !! h.clock.Keys && x != 0 && InboxEntry(h, x, m)
    ensures InboxEntry(Extend(h, rd, n', started), x, m)
  {
    var i: nat :| Arrived(h, m.uuid, i) && At(h, m.uuid, i) == x;
    ExtendArrived(h, rd, n', started, m.uuid, i);
    ExtendVis(h, rd, n', started, m.uuid, i);
  }

  lemma ExtendInbox(h: History, rd: Round, n': Net, started: set<int>, x: int, q: seq<Msg>)
    requires Chain(h) && Clocks(h) && started !! h.clock.Keys && x != 0 && InboxSound(h, x, q)
    ensures InboxSound(Extend(h, rd, n', started), x, q)
  {
    forall j | 0 <= j < |q|
      ensures InboxEntry(Extend(h, rd, n', started), x, q[j])
    {
      ExtendEntry(h, rd, n', started, x, q[j]);
    }
  }

  // The controller's two slots are where its layout says.
  lemma RootSlots(h: History, net: Net, rd: Round, n': Net)
    requires Chain(h) && Clocks(h) && Synced(h, net) && 0 in net
    requires rd.a > 0 && ProperFlood(h.nets[Now(h)], rd, n')
    ensures net[0].slots == Kids(rd.c, 0)
  {
    assert Intact(h.nets[Now(h)], rd, 0);
  }

  // A new request stands, so far, at the controller's children only.
  lemma IssueArrived(h: History, rd: Round, n': Net, i: nat)
    requires Chain(h) && Clocks(h) && rd.a > 0 && ProperFlood(h.nets[Now(h)], rd, n') && 0 < i < |rd.c|
    requires Chain(Extend(h, rd, n', {}))
    ensures var h' := Extend(h, rd, n', {}); Arrived(h', Now(h), i) <==> i <= 2
  {
    var h' := Extend(h, rd, n', {});
    VisitedStep(rd.a, i);
    if Vis(h', Now(h), i) {
      VisIsFlood(h', Now(h), i);
      assert At(h', Now(h), Parent(i)) in h.clock;
    }
  }

  lemma IssueEntry(h: History, rd: Round, n': Net, i: nat)
    requires Chain(h) && Clocks(h) && rd.a > 0 && ProperFlood(h.nets[Now(h)], rd, n') && 0 < i < |rd.c| && i <= 2
    requires Chain(Extend(h, rd, n', {}))
    ensures InboxEntry(Extend(h, rd, n', {}), rd.c[i].main, Msg(Now(h), rd.req))
  {
    var h' := Extend(h, rd, n', {});
    IssueArrived(h, rd, n', i);
    VisIsFlood(h', Now(h), i);
    assert rd.c[i].main in h.nets[Now(h)];
  }

  lemma IssueInbox(h: History, rd: Round, n': Net, y: int, q: seq<Msg>)
    requires Chain(h) && Clocks(h) && y != 0 && InboxSound(h, y, q)
    requires rd.a > 0 && ProperFlood(h.nets[Now(h)], rd, n') && Chain(Extend(h, rd, n', {}))
    ensures InboxSound(Extend(h, rd, n', {}), y, q)
    ensures Pushed(Kids(rd.c, 0), y) ==> InboxSound(Extend(h, rd, n', {}), y, q + [Msg(Now(h), rd.req)])
  {
    ExtendInbox(h, rd, n', {}, y, q);
    assert forall k :: 0 <= k < |q| ==> InboxEntry(h, y, q[k]);
    if Pushed(Kids(rd.c, 0), y) {
      var j := KidAt(rd.c, 0, y);
      IssueEntry(h, rd, n', j);
    }
  }

  lemma IssueSound(h: History, net: Net, qs: Queues, rd: Round, n': Net)
    requires Chain(h) && Clocks(h) && Synced(h, net) && 0 in net && QueuesSound(h, qs) && 0 !in qs
    requires rd.a > 0 && ProperFlood(h.nets[Now(h)], rd, n') && Chain(Extend(h, rd, n', {}))
    ensures QueuesSound(Extend(h, rd, n', {}), PushBoth(qs, net[0].slots, Msg(Now(h), rd.req)))
  {
    var m := Msg(Now(h), rd.req);
    var q2 := PushBoth(qs, net[0].slots, m);
    RootSlots(h, net, rd, n');
    KidsDiffer(rd.c, 0);
    PushBothByInbox(qs, net[0].slots, m);
    forall y | y in q2
      ensures InboxSound(Extend(h, rd, n', {}), y, q2[y])
    {
      assert InboxSound(h, y, qs[y]);
      IssueInbox(h, rd, n', y, qs[y]);
    }
  }

  lemma IssueComplete(h: History, net: Net, qs: Queues, rd: Round, n': Net)
    requires Chain(h) && Clocks(h) && Synced(h, net) && 0 in net && QueuesComplete(h, qs) && qs.Keys == net.Keys - {0}
    requires rd.a > 0 && ProperFlood(h.nets[Now(h)], rd, n') && Chain(Extend(h, rd, n', {}))
    ensures QueuesComplete(Extend(h, rd, n', {}), PushBoth(qs, net[0].slots, Msg(Now(h), rd.req)))
  {
    var h', m := Extend(h, rd, n', {}), Msg(Now(h), rd.req);
    var q2 := PushBoth(qs, net[0].slots, m);
    RootSlots(h, net, rd, n');
    KidsDiffer(rd.c, 0);
    PushBothByInbox(qs, net[0].slots, m);
    forall r: nat, i: nat | Arrived(h', r, i) && At(h', r, i) in h'.clock && h'.clock[At(h', r, i)] <= r
      ensures At(h', r, i) in q2 && Msg(r, h'.rounds[r].req) in q2[At(h', r, i)]
    {
      if r < Now(h) {
        ExtendVis(h, rd, n', {}, r, i);
        ExtendArrived(h, rd, n', {}, r, i);
        assert Arrived(h, r, i);
      } else {
        IssueQueued(h, rd, n', i);
      }
    }
  }

  // The new request stands with a process the message was pushed to.
  lemma IssueQueued(h: History, rd: Round, n': Net, i: nat)
    requires Chain(h) && Clocks(h) && rd.a > 0 && ProperFlood(h.nets[Now(h)], rd, n') && Chain(Extend(h, rd, n', {}))
    requires var h' := Extend(h, rd, n', {});
             Arrived(h', Now(h), i) && At(h', Now(h), i) in h'.clock && h'.clock[At(h', Now(h), i)] <= Now(h)
    ensures var y := At(Extend(h, rd, n', {}), Now(h), i);
            Pushed(Kids(rd.c, 0), y) && y != 0 && y in h.clock && h.clock[y] <= Now(h) && y in h.nets[h.clock[y]]
  {
    var h' := Extend(h, rd, n', {});
    IssueArrived(h, rd, n', i);
    VisIsFlood(h', Now(h), i);
    KnownSince(h, At(h', Now(h), i), Now(h));
  }

  lemma IssueSynced(h: History, net: Net, rd: Round, n': Net)
    requires Chain(h) && Clocks(h) && Synced(h, net) && 0 in net
    requires rd.a > 0 && ProperFlood(h.nets[Now(h)], rd, n') && Clocks(Extend(h, rd, n', {}))
    ensures Synced(Extend(h, rd, n', {}), net)
  {
    var h' := Extend(h, rd, n', {});
    FloodSparesRoot(h.nets[Now(h)], rd, n');
    hide ProperFlood;
    forall x | x in h'.clock
      ensures x in net <==> x in h'.nets[h'.clock[x]]
      ensures x in net ==> net[x] == h'.nets[h'.clock[x]][x]
    {
      if x != 0 {
        assert h'.nets[h'.clock[x]] == h.nets[h.clock[x]];
      }
    }
  }

  lemma FloodSparesRoot(n: Net, rd: Round, n': Net)
    requires ProperFlood(n, rd, n') && rd.a > 0 && 0 in n
    ensures 0 in n' && n'[0] == n[0]
  {
  }

  lemma IssueKeepsTime(h: History, net: Net, rd: Round, n': Net)
    requires TimeInv(h, net) && Settled(h, Now(h))
    requires rd.a > 0 && ProperFlood(h.nets[Now(h)], rd, n') && 0 in n'
    ensures TimeInv(Extend(h, rd, n', {}), net)
  {
    var h' := Extend(h, rd, n', {});
    assert FreshStart(h, n', {});
    assert Chain(h') by { ExtendChain(h, rd, n', {}); }
    assert Clocks(h') by { ExtendClocks(h, rd, n', {}); }
    assert Synced(h', net) by { IssueSynced(h, net, rd, n'); }
    assert InOrder(h') by { ExtendInOrder(h, rd, n', {}); }
    assert Earned(h') by { ExtendEarned(h, rd, n', {}); }
    assert Settled(h', Now(h)) by { ExtendSettled(h, rd, n', {}); }
  }

  // Sending a request on which at most one node can act keeps the history consistent, provided
  // every earlier change has been carried out.
  lemma IssueKeepsInv(h: History, net: Net, qs: Queues, rd: Round, n': Net)
    requires FloodInv(h, net, qs) && Settled(h, Now(h))
    requires rd.a > 0 && ProperFlood(h.nets[Now(h)], rd, n') && 0 in n'
    ensures FloodInv(Extend(h, rd, n', {}), net, PushBoth(qs, net[0].slots, Msg(Now(h), rd.req)))
  {
    IssueKeepsTime(h, net, rd, n');
    IssueSound(h, net, qs, rd, n');
    IssueComplete(h, net, qs, rd, n');
  }

  // ---- The controller acts by itself, or starts a process ----

  // The processes after a local round: the controller's new slots, and whatever was started.
  function LocalNet(net: Net, n': Net, started: set<int>): Net
    requires started <= n'.Keys && 0 in n'
  {
    map x | x in net.Keys + started + {0} :: if x == 0 || x in started then n'[x] else net[x]
  }

  function LocalQueues(qs: Queues, started: set<int>): Queues {
    map x | x in qs.Keys + started :: if x in started then [] else qs[x]
  }

  ghost predicate LocalRound(h: History, rd: Round, n': Net, started: set<int>)
    requires |h.nets| == Now(h) + 1
  {
    && rd.a == 0 && |rd.c| >= 1 && rd.c[0].main == 0 && 0 !in started
    && ProperLocal(h.nets[Now(h)], n') && FreshStart(h, n', started) && started <= n'.Keys
  }

  lemma LocalSettled(h: History, rd: Round, n': Net, started: set<int>)
    requires Chain(h) && Clocks(h) && Settled(h, Now(h)) && LocalRound(h, rd, n', started)
    ensures Settled(Extend(h, rd, n', started), Now(h) + 1)
  {
    var h' := Extend(h, rd, n', started);
    ExtendSettled(h, rd, n', started);
    forall u: nat, y |
      u < Now(h) + 1 && u < Now(h') && IsActor(h', u, y) && Changes(h', u) && !h'.rounds[u].req.cmd.Create?
      ensures y in h'.clock && u < h'.clock[y]
    {
    }
  }

  lemma LocalKeepsTime(h: History, net: Net, rd: Round, n': Net, started: set<int>)
    requires TimeInv(h, net) && Settled(h, Now(h)) && LocalRound(h, rd, n', started)
    ensures TimeInv(Extend(h, rd, n', started), LocalNet(net, n', started))
    ensures Settled(Extend(h, rd, n', started), Now(h) + 1)
  {
    var h' := Extend(h, rd, n', started);
    assert ProperRound(h.nets[Now(h)], rd, n');
    assert Chain(h') by { ExtendChain(h, rd, n', started); }
    assert Clocks(h') by { ExtendClocks(h, rd, n', started); }
    assert Synced(h', LocalNet(net, n', started)) by { LocalSynced(h, net, rd, n', started); }
    assert InOrder(h') by { ExtendInOrder(h, rd, n', started); }
    assert Earned(h') by { ExtendEarned(h, rd, n', started); }
    assert Settled(h', Now(h) + 1) && Settled(h', Now(h)) by {
      LocalSettled(h, rd, n', started);
      ExtendSettled(h, rd, n', started);
    }
  }

  lemma LocalSynced(h: History, net: Net, rd: Round, n': Net, started: set<int>)
    requires Chain(h) && Clocks(h) && Synced(h, net) && 0 in net && LocalRound(h, rd, n', started)
    requires Clocks(Extend(h, rd, n', started))
    ensures Synced(Extend(h, rd, n', started), LocalNet(net, n', started))
  {
    var h', net' := Extend(h, rd, n', started), LocalNet(net, n', started);
    forall x | x in h'.clock
      ensures x in net' <==> x in h'.nets[h'.clock[x]]
      ensures x in net' ==> net'[x] == h'.nets[h'.clock[x]][x]
    {
      if x in h.clock && x != 0 {
        assert h'.nets[h'.clock[x]] == h.nets[h.clock[x]];
      }
    }
  }

  lemma LocalMail(h: History, net: Net, qs: Queues, rd: Round, n': Net, started: set<int>)
    requires Chain(h) && Clocks(h) && Synced(h, net) && 0 in net && LocalRound(h, rd, n', started)
    requires QueuesSound(h, qs) && QueuesComplete(h, qs) && 0 !in qs
    ensures QueuesSound(Extend(h, rd, n', started), LocalQueues(qs, started))
    ensures QueuesComplete(Extend(h, rd, n', started), LocalQueues(qs, started))
  {
    var h', q2 := Extend(h, rd, n', started), LocalQueues(qs, started);
    forall y | y in q2
      ensures InboxSound(h', y, q2[y])
    {
      if y in qs && y !in started {
        assert InboxSound(h, y, qs[y]);
        ExtendInbox(h, rd, n', started, y, qs[y]);
      }
    }
    forall r: nat, i: nat | Arrived(h', r, i) && At(h', r, i) in h'.clock && h'.clock[At(h', r, i)] <= r
      ensures At(h', r, i) in q2 && Msg(r, h'.rounds[r].req) in q2[At(h', r, i)]
    {
      LocalArrivedBefore(h, rd, n', started, r, i);
      ExtendVis(h, rd, n', started, r, i);
      assert Arrived(h, r, i);
    }
  }

  lemma LocalArrivedBefore(h: History, rd: Round, n': Net, started: set<int>, r: nat, i: nat)
    requires Chain(h) && Clocks(h) && LocalRound(h, rd, n', started)
    requires Arrived(Extend(h, rd, n', started), r, i)
    ensures r < Now(h) && Arrived(h, r, i)
  {
    AllUnderRoot(Parent(i));
    if r < Now(h) {
      ExtendArrived(h, rd, n', started, r, i);
    }
  }

  // What the controller does by itself keeps the history consistent.
  lemma LocalKeepsInv(h: History, net: Net, qs: Queues, rd: Round, n': Net, started: set<int>)
    requires FloodInv(h, net, qs) && Settled(h, Now(h)) && LocalRound(h, rd, n', started)
    ensures var h' := Extend(h, rd, n', started);
            TimeInv(h', LocalNet(net, n', started)) && MailInv(h', LocalNet(net, n', started), LocalQueues(qs, started))
    ensures var h' := Extend(h, rd, n', started); Chain(h') && Clocks(h') && Settled(h', Now(h'))
  {
    LocalKeepsTime(h, net, rd, n', started);
    LocalMail(h, net, qs, rd, n', started);
    LocalKeys(net, qs, n', started);
  }

  lemma LocalKeys(net: Net, qs: Queues, n': Net, started: set<int>)
    requires qs.Keys == net.Keys - {0} && started <= n'.Keys && 0 in n' && 0 !in started
    ensures LocalQueues(qs, started).Keys == LocalNet(net, n', started).Keys - {0}
  {
  }
}
