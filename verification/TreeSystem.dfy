// The whole of lab6: the controller, the compute nodes with their inboxes, and the replies on
// their way up, as one asynchronous system.
module TreeSystem {
  import opened Overlay
  import opened HeapShape
  import opened Flood
  import opened Answers
  import opened Phases
  import opened Shapes
  import opened TreeArray
  import opened Controller
  import opened Scripts

  function Whole(net: Net, slots: Slots): Net { net[0 := Proc(NO_PEER, slots)] }

  // What the controller pushed into its sockets reaches the inboxes.
  function PushOut(qs: Queues, out: seq<(int, Msg)>): Queues {
    if out == [] then qs else PushOut(Push(qs, out[0].0, out[0].1), out[1..])
  }

  // The controller's records, the processes and their inboxes agree with one history.
  ghost predicate Linked(c: Ctl, net: Net, qs: Queues, h: History, all: set<Reply>) {
    && FloodInv(h, Whole(net, c.slots), qs) && AnswersInv(h, all) && 0 !in net
    && c.serial == Now(h) && TreeOk(c.tree, c.self, c.nextPort)
    && (forall x :: x in h.clock ==> x < c.nextPort)
  }

  // h' continues h with the same processes.
  ghost predicate Later(h: History, h': History) {
    h.rounds <= h'.rounds && h'.clock.Keys == h.clock.Keys && forall x :: x in h.clock ==> h.clock[x] <= h'.clock[x]
  }

  // Every request that changed the network has been carried out, except for those in `open`.
  ghost predicate Carried(h: History, open: set<nat>)
    requires |h.nets| == Now(h) + 1
  {
    forall r: nat, x {:trigger IsActor(h, r, x)} :: r < Now(h) && IsActor(h, r, x) && Changes(h, r) && r !in open ==>
      x in h.clock && r < h.clock[x]
  }

  ghost predicate Quiet(h: History) { |h.nets| == Now(h) + 1 && Carried(h, {}) }

  ghost predicate OnlyCreates(h: History, open: set<nat>) {
    forall r :: r in open ==> r < Now(h) && h.rounds[r].req.cmd.Create?
  }

  lemma CarriedSettles(h: History, open: set<nat>)
    requires |h.nets| == Now(h) + 1 && Carried(h, open) && OnlyCreates(h, open)
    ensures Settled(h, Now(h))
  {
  }

  lemma SeenCarried(h: History, x: int, r: nat, open: set<nat>)
    requires |h.nets| == Now(h) + 1 && Carried(h, open) && x in h.clock && h.clock[x] <= r
    ensures Carried(Seen(h, x, r), open)
  {
    var h' := Seen(h, x, r);
    forall u: nat, y | u < Now(h') && IsActor(h', u, y) && Changes(h', u) && u !in open
      ensures y in h'.clock && u < h'.clock[y]
    {
      assert IsActor(h, u, y) && Changes(h, u);
    }
  }

  // One more request, which is open if it changes anything and is not the controller's own.
  lemma ExtendCarried(h: History, rd: Round, n': Net, started: set<int>, open: set<nat>)
    requires |h.nets| == Now(h) + 1 && Carried(h, open) && started !! h.clock.Keys
    ensures Carried(Extend(h, rd, n', started), open + {Now(h)})
    ensures n' == h.nets[Now(h)] || (rd.a == 0 && |rd.c| > 0 && rd.c[0].main == 0) ==>
              Carried(Extend(h, rd, n', started), open)
  {
    var h' := Extend(h, rd, n', started);
    forall u: nat, y | u < Now(h') && IsActor(h', u, y) && Changes(h', u) && u !in open
      ensures u < Now(h) ==> y in h'.clock && u < h'.clock[y]
    {
      if u < Now(h) {
        assert IsActor(h, u, y) && Changes(h, u);
      }
    }
  }

  lemma LinkedFacts(c: Ctl, net: Net, qs: Queues, h: History, all: set<Reply>)
    requires Linked(c, net, qs, h, all)
    ensures Chain(h) && Clocks(h) && RepliesSound(h, all) && |h.nets| == Now(h) + 1 && Settled(h, Now(h) - 1)
    ensures 0 !in net && c.serial == Now(h) && TreeOk(c.tree, c.self, c.nextPort)
  {
  }

  // ---- The controller acts by itself ----

  function OwnRound(): Round { Round(Request(Ping, -1, 0, 0, 0), [NO_PEER], 0) }

  lemma OwnNet(net: Net, qs: Queues, before: Slots, after: Slots, n': Net)
    requires 0 in n' && n'[0] == Proc(NO_PEER, after)
    ensures LocalNet(Whole(net, before), n', {}) == Whole(net, after)
    ensures LocalQueues(qs, {}) == qs
  {
  }

  lemma OwnStep(c: Ctl, net: Net, qs: Queues, h: History, all: set<Reply>, s: Slots, open: set<nat>)
    requires Linked(c, net, qs, h, all) && |h.nets| == Now(h) + 1 && Carried(h, open) && OnlyCreates(h, open)
    ensures var n' := h.nets[Now(h)][0 := Proc(NO_PEER, s)]; var h' := Extend(h, OwnRound(), n', {});
            Linked(c.(slots := s, serial := c.serial + 1), net, qs, h', all)
            && |h'.nets| == Now(h') + 1 && Carried(h', open)
  {
    var n' := h.nets[Now(h)][0 := Proc(NO_PEER, s)];
    var w := Whole(net, c.slots);
    CarriedSettles(h, open);
    ExtendCarried(h, OwnRound(), n', {}, open);
    assert LocalRound(h, OwnRound(), n', {});
    LocalKeepsInv(h, w, qs, OwnRound(), n', {});
    OwnNet(net, qs, c.slots, s, n');
    ExtendAnswers(h, OwnRound(), n', {}, all);
  }

  // ---- The controller sends ----

  lemma {:induction false} SentReaches(qs: Queues, s: Slots, m: Msg)
    ensures PushOut(qs, PushOne(PushOne([], s.left.main, m), s.right.main, m)) == PushBoth(qs, s, m)
  {
    var l, r := s.left.main, s.right.main;
    var q1 := Push(qs, l, m);
    if l != 0 && r != 0 {
      var out := [(l, m), (r, m)];
      assert PushOne(PushOne([], l, m), r, m) == out;
      assert out[1..] == [(r, m)] && [(r, m)][1..] == [];
      assert PushOut(q1, [(r, m)]) == PushOut(Push(q1, r, m), []);
    } else if l != 0 || r != 0 {
      var out := [(if l != 0 then l else r, m)];
      assert PushOne(PushOne([], l, m), r, m) == out && out[1..] == [];
    }
  }

  lemma {:induction false} SendStep(c: Ctl, net: Net, qs: Queues, h: History, all: set<Reply>, rd: Round, x: int)
    requires Linked(c, net, qs, h, all) && |h.nets| == Now(h) + 1 && Settled(h, Now(h)) && c.out == []
    requires rd.a > 0 && FloodLeadsTo(h.nets[Now(h)], rd, x)
    ensures var h', c' := Extend(h, rd, Effect(h.nets[Now(h)], x, rd.req), {}), Send(c, rd.req);
            Linked(c', net, PushOut(qs, c'.out), h', all)
  {
    var n' := Effect(h.nets[Now(h)], x, rd.req);
    assert x != 0 && 0 in n';
    IssueKeepsInv(h, Whole(net, c.slots), qs, rd, n');
    SentReaches(qs, c.slots, Msg(Now(h), rd.req));
    ExtendAnswers(h, rd, n', {}, all);
  }

  // ---- A removal script runs ----

  // The script for entry k, with `s` commands done.
  function ScriptAt(t: seq<TreeNode>, k: nat, s: nat): Script
    requires k < |t|
  {
    ScriptFor(t, t[k].id).(now := s)
  }

  // Step s of removing entry k has been sent and is on its way.
  ghost predicate StepSent(c: Ctl, h: History, k: nat, s: nat)
    requires |h.nets| == Now(h) + 1
  {
    && 0 < k < |c.tree| && s < StepCount(Layout(c.tree), k) && c.scripts == [ScriptAt(c.tree, k, s)]
    && Now(h) > 0 && h.rounds[Now(h) - 1] == StepRound(Layout(c.tree), k, s) && h.rounds[Now(h) - 1].a > 0
    && Carried(h, {(Now(h) - 1) as nat}) && Shape(h.nets[Now(h)], Layout(c.tree), k, s + 1)
  }

  // The removal of entry k of c0 is complete in c.
  ghost predicate StepsDone(c0: Ctl, c: Ctl, h: History, k: nat)
    requires |h.nets| == Now(h) + 1
  {
    && k < |c0.tree| && c.scripts == [] && c.tree == Without(c0.tree, k)
    && c.pings == c0.pings - {c0.tree[k].id} && c.log == c0.log + [RemoveOk] && c.counts == c0.counts && c.out == []
    && Quiet(h) && Mirrors(h.nets[Now(h)], Layout(c.tree))
  }

  ghost predicate StepsContinue(c0: Ctl, c: Ctl, h: History, k: nat)
    requires |h.nets| == Now(h) + 1
  {
    && c.tree == c0.tree && c.pings == c0.pings && c.log == c0.log && c0.serial < Now(h)
    && c.counts == c0.counts[Now(h) - 1 := (|c.tree| + 1) / 2]
    && exists s: nat :: StepSent(c, h, k, s)
  }

  ghost predicate Outcome(c0: Ctl, c: Ctl, net: Net, qs: Queues, h: History, all: set<Reply>, k: nat) {
    && Linked(c, net, PushOut(qs, c.out), h, all)
    && (StepsDone(c0, c, h, k) || StepsContinue(c0, c, h, k))
  }

  lemma ControlNow(c: Ctl, net: Net, qs: Queues, h: History, all: set<Reply>)
    requires Linked(c, net, qs, h, all)
    ensures 0 in h.nets[Now(h)] && h.nets[Now(h)][0] == Proc(NO_PEER, c.slots)
  {
  }

  lemma LinkedTree(c: Ctl, net: Net, qs: Queues, h: History, all: set<Reply>)
    requires Linked(c, net, qs, h, all)
    ensures TreeOk(c.tree, c.self, c.nextPort) && |h.nets| == Now(h) + 1
  {
  }

  // The controller carries a step out itself exactly when the layout says it is the acting node.
  lemma OwnOrSent(c: Ctl, net: Net, qs: Queues, h: History, all: set<Reply>, k: nat, s: nat)
    requires Linked(c, net, qs, h, all) && 0 < k < |c.tree| && s < StepCount(Layout(c.tree), k)
    requires FloodLeadsTo(h.nets[Now(h)], StepRound(Layout(c.tree), k, s), StepActor(Layout(c.tree), k, s))
    requires StepRound(Layout(c.tree), k, s).c[0] == NO_PEER
    ensures var rd := StepRound(Layout(c.tree), k, s);
            if rd.a > 0 then React(-1, c.slots, rd.req).Forward? && !rd.req.cmd.Create? && !rd.req.cmd.Exec?
            else
              && (rd.req.cmd.Disconnect? || rd.req.cmd.Connect?)
              && StepActor(Layout(c.tree), k, s) == 0
              && React(-1, c.slots, rd.req).Act?
              && Effect(h.nets[Now(h)], 0, rd.req)
                 == h.nets[Now(h)][0 := Proc(NO_PEER, React(-1, c.slots, rd.req).slots)]
  {
    var rd := StepRound(Layout(c.tree), k, s);
    ControlNow(c, net, qs, h, all);
    assert Intact(h.nets[Now(h)], rd, 0);
  }

  lemma {:induction false} WithoutOk(t: seq<TreeNode>, self: int, nextPort: int, k: nat)
    requires TreeOk(t, self, nextPort) && 0 < k < |t|
    ensures TreeOk(Without(t, k), self, nextPort)
  {
    var u := Without(t, k);
    assert forall i :: 0 <= i < |u| ==> u[i] == t[if i == k then |t| - 1 else i];
    forall i, j | 0 <= i < j < |u|
      ensures Apart(u, i, j)
    {
      assert if i == k then Apart(t, j, |t| - 1) else if j == k then Apart(t, i, |t| - 1) else Apart(t, i, j);
    }
  }

  lemma {:induction false} WithoutLayout(t: seq<TreeNode>, self: int, nextPort: int, k: nat)
    requires TreeOk(t, self, nextPort) && 0 < k < |t|
    ensures Removed(t, t[k].id) == Without(t, k)
    ensures Layout(Without(t, k)) == Without(Layout(t), k)
  {
    FoundAt(t, self, nextPort, k);
    var u, l := Without(t, k), Without(Layout(t), k);
    assert forall i :: 0 <= i < |u| ==> u[i] == t[if i == k then |t| - 1 else i];
    assert forall i :: 0 <= i < |u| ==> l[i] == Layout(t)[if i == k then |t| - 1 else i];
  }

  // The branch push_next_remove takes ...
  lemma {:induction false} PushNextBranch(c: Ctl, sc: Script, req: Request)
    requires Decode(sc) == Some(req) && !req.cmd.Create? && !req.cmd.Exec?
    ensures React(-1, c.slots, req).Forward? ==> PushNext(c, sc) == Send(c, req)
    ensures React(-1, c.slots, req).Act? && (req.cmd.Disconnect? || req.cmd.Connect?) ==>
              PushNext(c, sc)
              == RecRemove(c.(slots := React(-1, c.slots, req).slots, serial := c.serial + 1), req.cmd, req.id, Ok, 0)
  {
  }

  // ... and what rec_remove makes of an OK for the only script there is.
  lemma {:induction false} AdvanceBranch(c: Ctl, sc: Script, cmd: Command, id: int, count: int)
    requires c.scripts == [sc] && StandsAt(sc, cmd, id) && |c.tree| > 0
    ensures var sc' := sc.(now := sc.now + 1);
            RecRemove(c, cmd, id, Ok, count)
            == if sc'.now >= sc.number then
                 Say(c.(scripts := [], pings := c.pings - {sc.target}, tree := Removed(c.tree, sc.target)), RemoveOk)
               else PushNext(c.(scripts := [sc']), sc')
  {
    hide PushNext, Removed, StandsAt, Decode;
    assert Matching(c.scripts, cmd, id) == 0;
    assert c.scripts[0 := sc.(now := sc.now + 1)] == [sc.(now := sc.now + 1)];
    assert Drop(c.scripts, 0) == [];
  }

  lemma SentIsStep(c: Ctl, h: History, k: nat, s: nat, x: int)
    requires Quiet(h) && c.serial == Now(h)
    requires 0 < k < |c.tree| && s < StepCount(Layout(c.tree), k) && c.scripts == [ScriptAt(c.tree, k, s)]
    requires var rd, n := StepRound(Layout(c.tree), k, s), h.nets[Now(h)];
             rd.a > 0 && x in n && React(n[x].self.id, n[x].slots, rd.req).Act?
             && Shape(Effect(n, x, rd.req), Layout(c.tree), k, s + 1)
    ensures var rd := StepRound(Layout(c.tree), k, s);
            StepsContinue(c, Send(c, rd.req), Extend(h, rd, Effect(h.nets[Now(h)], x, rd.req), {}), k)
  {
    hide Carried, Shape, StepRound, StepCount, ScriptFor, Layout;
    var rd := StepRound(Layout(c.tree), k, s);
    ExtendCarried(h, rd, Effect(h.nets[Now(h)], x, rd.req), {}, {});
    assert {} + {Now(h)} == {Now(h)};
    assert StepSent(Send(c, rd.req), Extend(h, rd, Effect(h.nets[Now(h)], x, rd.req), {}), k, s);
  }

  lemma SentOutcome(c: Ctl, net: Net, qs: Queues, h: History, all: set<Reply>, k: nat, s: nat, x: int)
    requires Linked(c, net, qs, h, all) && Quiet(h) && c.out == []
    requires 0 < k < |c.tree| && s < StepCount(Layout(c.tree), k) && c.scripts == [ScriptAt(c.tree, k, s)]
    requires var rd := StepRound(Layout(c.tree), k, s);
             rd.a > 0 && FloodLeadsTo(h.nets[Now(h)], rd, x)
               && Shape(Effect(h.nets[Now(h)], x, rd.req), Layout(c.tree), k, s + 1)
    ensures var rd := StepRound(Layout(c.tree), k, s);
            Outcome(c, Send(c, rd.req), net, qs, Extend(h, rd, Effect(h.nets[Now(h)], x, rd.req), {}), all, k)
            && StepsContinue(c, Send(c, rd.req), Extend(h, rd, Effect(h.nets[Now(h)], x, rd.req), {}), k)
  {
    var rd := StepRound(Layout(c.tree), k, s);
    CarriedSettles(h, {});
    SendStep(c, net, qs, h, all, rd, x);
    SentIsStep(c, h, k, s, x);
  }

  // The controller once entry k is gone.
  function Finished(c: Ctl, k: nat): Ctl
    requires k < |c.tree|
  {
    var id := c.tree[k].id;
    Say(c.(scripts := [], pings := c.pings - {id}, tree := Removed(c.tree, id)), RemoveOk)
  }

  lemma {:induction false} AdvanceIs(c: Ctl, k: nat, s: nat, count: int)
    requires TreeOk(c.tree, c.self, c.nextPort)
    requires 0 < k < |c.tree| && s < StepCount(Layout(c.tree), k) && c.scripts == [ScriptAt(c.tree, k, s)]
    ensures var req := StepRound(Layout(c.tree), k, s).req;
            RecRemove(c, req.cmd, req.id, Ok, count)
            == if s + 1 == StepCount(Layout(c.tree), k) then Finished(c, k)
               else PushNext(c.(scripts := [ScriptAt(c.tree, k, s + 1)]), ScriptAt(c.tree, k, s + 1))
  {
    hide PushNext, RecRemove, TreeOk, StandsAt, Decode, StepRound, ScriptFor, Layout;
    var req := StepRound(Layout(c.tree), k, s).req;
    ScriptHoldsSteps(c.tree, c.self, c.nextPort, k, s);
    AdvanceBranch(c, ScriptAt(c.tree, k, s), req.cmd, req.id, count);
  }

  lemma DoneOutcome(c: Ctl, net: Net, qs: Queues, h: History, all: set<Reply>, k: nat)
    requires Linked(c, net, qs, h, all) && Quiet(h) && c.out == [] && 0 < k < |c.tree|
    requires Shape(h.nets[Now(h)], Layout(c.tree), k, StepCount(Layout(c.tree), k))
    ensures Outcome(c, Finished(c, k), net, qs, h, all, k)
  {
    TreeLayout(c.tree, c.self, c.nextPort);
    WithoutOk(c.tree, c.self, c.nextPort, k);
    WithoutLayout(c.tree, c.self, c.nextPort, k);
    ShapeEnds(h.nets[Now(h)], Layout(c.tree), k);
    assert PushOut(qs, []) == qs;
  }

  lemma OutcomeFrom(c: Ctl, c1: Ctl, c2: Ctl, net: Net, qs: Queues, h: History, all: set<Reply>, k: nat)
    requires Outcome(c1, c2, net, qs, h, all, k)
    requires c1.tree == c.tree && c1.pings == c.pings && c1.log == c.log && c1.counts == c.counts
             && c1.serial >= c.serial
    ensures Outcome(c, c2, net, qs, h, all, k)
    ensures |h.nets| == Now(h) + 1 && (StepsContinue(c1, c2, h, k) ==> StepsContinue(c, c2, h, k))
  {
  }

  // The last step of the script is not the controller's own.
  predicate LastIsSent(c: seq<Peer>, k: nat)
    requires 0 < k < |c|
  {
    StepRound(c, k, StepCount(c, k) - 1).a > 0
  }

  lemma ExtendLater(c: Ctl, net: Net, qs: Queues, h: History, all: set<Reply>, rd: Round, n': Net)
    requires Linked(c, net, qs, h, all)
    ensures Later(h, Extend(h, rd, n', {}))
  {
  }

  // From any step on, the controller gets as far as it can by itself: either the next request is
  // on its way, or the removal is complete.
  lemma {:induction false} PushNextRuns(c: Ctl, net: Net, qs: Queues, h: History, all: set<Reply>, k: nat, s: nat)
    returns (h': History)
    requires Linked(c, net, qs, h, all) && Quiet(h) && c.out == []
    requires 0 < k < |c.tree| && s < StepCount(Layout(c.tree), k) && c.scripts == [ScriptAt(c.tree, k, s)]
    requires Shape(h.nets[Now(h)], Layout(c.tree), k, s)
    ensures Outcome(c, PushNext(c, ScriptAt(c.tree, k, s)), net, qs, h', all, k) && Later(h, h')
    ensures |h'.nets| == Now(h') + 1
    ensures LastIsSent(Layout(c.tree), k) ==> StepsContinue(c, PushNext(c, ScriptAt(c.tree, k, s)), h', k)
    decreases StepCount(Layout(c.tree), k) - s, 1
  {
    hide Linked, Outcome, TreeOk, Shape, StepRound, StepActor, ScriptFor, PushNext, RecRemove, Layout, Effect, Decode,
         Chain, Clocks, RepliesSound, StepsContinue;
    LinkedFacts(c, net, qs, h, all);
    var l, sc, n := Layout(c.tree), ScriptAt(c.tree, k, s), h.nets[Now(h)];
    var rd, x := StepRound(l, k, s), StepActor(l, k, s);
    TreeLayout(c.tree, c.self, c.nextPort);
    ScriptHoldsSteps(c.tree, c.self, c.nextPort, k, s);
    StepLeadsOn(n, l, k, s);
    OwnOrSent(c, net, qs, h, all, k, s);
    PushNextBranch(c, sc, rd.req);
    if rd.a > 0 {
      SentOutcome(c, net, qs, h, all, k, s, x);
      ExtendLater(c, net, qs, h, all, rd, Effect(n, x, rd.req));
      h' := Extend(h, rd, Effect(n, x, rd.req), {});
    } else {
      var slots := React(-1, c.slots, rd.req).slots;
      OwnStep(c, net, qs, h, all, slots, {});
      ExtendLater(c, net, qs, h, all, OwnRound(), n[0 := Proc(NO_PEER, slots)]);
      var c1, h1 := c.(slots := slots, serial := c.serial + 1), Extend(h, OwnRound(), n[0 := Proc(NO_PEER, slots)], {});
      h' := AdvanceRuns(c1, net, qs, h1, all, k, s, 0);
      OutcomeFrom(c, c1, PushNext(c, sc), net, qs, h', all, k);
    }
  }

  lemma {:induction false} AdvanceRuns(c: Ctl, net: Net, qs: Queues, h: History, all: set<Reply>, k: nat, s: nat,
      count: int)
    returns (h': History)
    requires Linked(c, net, qs, h, all) && Quiet(h) && c.out == []
    requires 0 < k < |c.tree| && s < StepCount(Layout(c.tree), k) && c.scripts == [ScriptAt(c.tree, k, s)]
    requires Shape(h.nets[Now(h)], Layout(c.tree), k, s + 1)
    ensures var req := StepRound(Layout(c.tree), k, s).req;
            Outcome(c, RecRemove(c, req.cmd, req.id, Ok, count), net, qs, h', all, k)
    ensures Later(h, h') && |h'.nets| == Now(h') + 1
    ensures LastIsSent(Layout(c.tree), k) && s + 1 < StepCount(Layout(c.tree), k) ==>
              var req := StepRound(Layout(c.tree), k, s).req;
              StepsContinue(c, RecRemove(c, req.cmd, req.id, Ok, count), h', k)
    decreases StepCount(Layout(c.tree), k) - s, 0
  {
    hide RecRemove, PushNext, Linked, Outcome, Shape, StepRound, Finished, ScriptAt, StepsContinue;
    LinkedTree(c, net, qs, h, all);
    AdvanceIs(c, k, s, count);
    if s + 1 == StepCount(Layout(c.tree), k) {
      DoneOutcome(c, net, qs, h, all, k);
      h' := h;
    } else {
      h' := NextRuns(c, net, qs, h, all, k, s + 1);
    }
  }

  lemma {:induction false} NextRuns(c: Ctl, net: Net, qs: Queues, h: History, all: set<Reply>, k: nat, s: nat)
    returns (h': History)
    requires Linked(c, net, qs, h, all) && Quiet(h) && c.out == []
    requires 0 < k < |c.tree| && s < StepCount(Layout(c.tree), k) && Shape(h.nets[Now(h)], Layout(c.tree), k, s)
    ensures Outcome(c, PushNext(c.(scripts := [ScriptAt(c.tree, k, s)]), ScriptAt(c.tree, k, s)), net, qs, h', all, k)
    ensures Later(h, h') && |h'.nets| == Now(h') + 1
    ensures LastIsSent(Layout(c.tree), k) ==>
              StepsContinue(c, PushNext(c.(scripts := [ScriptAt(c.tree, k, s)]), ScriptAt(c.tree, k, s)), h', k)
    decreases StepCount(Layout(c.tree), k) - s, 2
  {
    var c1 := c.(scripts := [ScriptAt(c.tree, k, s)]);
    h' := PushNextRuns(c1, net, qs, h, all, k, s);
    OutcomeFrom(c, c1, PushNext(c1, ScriptAt(c.tree, k, s)), net, qs, h', all, k);
  }
}
