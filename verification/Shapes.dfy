// Every command of the controller, step by step: which layout its flood meets, who acts on it, and
// which shape the network has afterwards.
module Shapes {
  import opened Overlay
  import opened HeapShape
  import opened Flood
  import opened Phases
  import TreeArray

  // ---- Removing the last entry takes two steps ----

  ghost predicate ShortPhase(n: Net, c: seq<Peer>, s: nat)
    requires |c| >= 2
  {
    if s == 0 then Mirrors(n, c)
    else if s == 1 then
      && (forall i {:trigger SpotOk(n, c, i, Kids(c, i))} :: 0 <= i < |c| - 1 ==> SpotOk(n, c, i, Kids(c, i)))
      && (forall x {:trigger Listed(c, x)} :: x in n ==> Listed(c, x)) && c[|c| - 1].main !in n
    else Mirrors(n, c[..|c| - 1])
  }

  // ---- Both scripts ----

  ghost predicate Shape(n: Net, c: seq<Peer>, k: nat, s: nat)
    requires 0 < k < |c|
  {
    if k < |c| - 1 then Phase(n, c, k, s) else ShortPhase(n, c, s)
  }

  function StepCount(c: seq<Peer>, k: nat): nat
    requires 0 < k < |c|
  {
    if k < |c| - 1 then Steps(c, k) else 2
  }

  // Step s of removing entry k: the request, the layout it meets, and the entry that acts.
  function StepRound(c: seq<Peer>, k: nat, s: nat): Round
    requires 0 < k < |c|
  {
    if k < |c| - 1 then Round(RequestAt(c, k, s), Placed(c, k, s), ActorAt(c, k, s))
    else if s == 0 then Round(Request(Remove, c[k].id, 0, 0, 0), c, k)
    else Round(Request(Disconnect, c[k].id, 0, 0, 0), c, Parent(k))
  }

  function StepActor(c: seq<Peer>, k: nat, s: nat): int
    requires 0 < k < |c|
  {
    var rd := StepRound(c, k, s);
    if rd.a < |rd.c| then rd.c[rd.a].main else 0
  }

  ghost predicate FloodLeadsTo(n: Net, rd: Round, x: int) {
    && rd.a < |rd.c| && rd.c[rd.a].main == x
    && x in n && React(n[x].self.id, n[x].slots, rd.req).Act?
    && ProperFlood(n, rd, Effect(n, x, rd.req))
  }

  lemma ShortStep0(n: Net, c: seq<Peer>)
    requires GoodLayout(c) && |c| >= 2 && Mirrors(n, c)
    ensures var rd := StepRound(c, |c| - 1, 0);
            FloodLeadsTo(n, rd, c[|c| - 1].main) && ShortPhase(Effect(n, c[|c| - 1].main, rd.req), c, 1)
  {
    hide ShortPhase, FloodLeadsTo, Mirrors, GoodLayout;
    LastIsAsked(n, c);
    LastIsGone(n, c);
  }

  lemma LastIsAsked(n: Net, c: seq<Peer>)
    requires GoodLayout(c) && |c| >= 2 && Mirrors(n, c)
    ensures var rd, x := StepRound(c, |c| - 1, 0), c[|c| - 1].main;
            FloodLeadsTo(n, rd, x) && Effect(n, x, rd.req) == n - {x}
  {
    var rd := StepRound(c, |c| - 1, 0);
    assert SpotOk(n, c, |c| - 1, Kids(c, |c| - 1));
    MirrorFlood(n, c, rd);
  }

  lemma LastIsGone(n: Net, c: seq<Peer>)
    requires GoodLayout(c) && |c| >= 2 && Mirrors(n, c)
    ensures ShortPhase(n - {c[|c| - 1].main}, c, 1)
  {
    forall i | 0 <= i < |c| - 1
      ensures SpotOk(n - {c[|c| - 1].main}, c, i, Kids(c, i))
    {
      assert SpotOk(n, c, i, Kids(c, i));
    }
  }

  // On a mirrored network every slot is as the layout says, so only React decides.
  lemma MirrorFlood(n: Net, c: seq<Peer>, rd: Round)
    requires GoodLayout(c) && Mirrors(n, c) && rd.c == c
    requires forall i :: 0 <= i < |c| && i != rd.a ==> React(c[i].id, Kids(c, i), rd.req).Forward?
    ensures LinksFollow(n, c) && IntactAbove(n, rd)
  {
    forall i | 0 <= i < |c|
      ensures SlotsFit(n, c, i) && Intact(n, rd, i)
    {
      assert SpotOk(n, c, i, Kids(c, i));
    }
    assert forall x :: x in n ==> Listed(c, x);
  }

  lemma ShortStep1(n: Net, c: seq<Peer>)
    requires GoodLayout(c) && |c| >= 2 && ShortPhase(n, c, 1)
    ensures var rd := StepRound(c, |c| - 1, 1);
            FloodLeadsTo(n, rd, c[rd.a].main) && ShortPhase(Effect(n, c[rd.a].main, rd.req), c, 2)
  {
    var rd, b := StepRound(c, |c| - 1, 1), c[..|c| - 1];
    assert SpotOk(n, c, rd.a, Kids(c, rd.a));
    forall i | 0 <= i < |c|
      ensures SlotsFit(n, c, i) && Intact(n, rd, i)
    {
      if i < |c| - 1 {
        assert SpotOk(n, c, i, Kids(c, i));
      } else {
        VisitedStep(rd.a, i);
      }
    }
    forall x | x in n
      ensures Listed(b, x)
    {
      assert Listed(c, x);
      var j :| 0 <= j < |c| && c[j].main == x;
      assert b[j].main == x;
    }
    var n' := Effect(n, c[rd.a].main, rd.req);
    forall i | 0 <= i < |b|
      ensures SpotOk(n', b, i, Kids(b, i))
    {
      assert SpotOk(n, c, i, Kids(c, i));
    }
  }

  // Step s of a removal, sent on the network that step s finds, is answered by exactly one node
  // and leaves the network that step s + 1 finds.
  lemma StepLeadsOn(n: Net, c: seq<Peer>, k: nat, s: nat)
    requires GoodLayout(c) && 0 < k < |c| && s < StepCount(c, k) && Shape(n, c, k, s)
    ensures var rd, x := StepRound(c, k, s), StepActor(c, k, s);
            FloodLeadsTo(n, rd, x) && Shape(Effect(n, x, rd.req), c, k, s + 1) && |rd.c| <= |c| && rd.c[0] == NO_PEER
  {
    if k < |c| - 1 {
      PhaseFlood(n, c, k, s);
    } else if s == 0 {
      ShortStep0(n, c);
    } else {
      ShortStep1(n, c);
    }
  }

  lemma ShapeBegins(n: Net, c: seq<Peer>, k: nat)
    requires GoodLayout(c) && 0 < k < |c| && Mirrors(n, c)
    ensures Shape(n, c, k, 0)
  {
    if k < |c| - 1 {
      PhaseBegins(n, c, k);
    }
  }

  lemma ShapeEnds(n: Net, c: seq<Peer>, k: nat)
    requires GoodLayout(c) && 0 < k < |c| && Shape(n, c, k, StepCount(c, k))
    ensures Mirrors(n, TreeArray.Without(c, k))
  {
    if k < |c| - 1 {
      PhaseEnds(n, c, k);
    } else {
      assert TreeArray.Without(c, k) == c[..|c| - 1];
    }
  }

  // ---- Creating a node ----

  function CreateRound(c: seq<Peer>, p: Peer): Round
    requires |c| > 0
  {
    var q := Parent(|c|);
    Round(Request(Create, p.id, c[q].id, p.main, p.ping), c, q)
  }

  lemma CreateLeadsOn(n: Net, c: seq<Peer>, p: Peer)
    requires GoodLayout(c + [p]) && |c| > 0 && Mirrors(n, c)
    ensures var rd, n1 := CreateRound(c, p), n[p.main := Proc(p, NO_CHILDREN)];
            FloodLeadsTo(n1, rd, c[rd.a].main) && Mirrors(Effect(n1, c[rd.a].main, rd.req), c + [p])
  {
    var rd, n1 := CreateRound(c, p), n[p.main := Proc(p, NO_CHILDREN)];
    var d, x := c + [p], c[rd.a].main;
    assert GoodLayout(c) by {
      assert forall i :: 0 <= i < |c| ==> c[i] == d[i];
    }
    assert d[|c|] == p;
    forall i | 0 <= i < |c|
      ensures SlotsFit(n1, c, i) && Intact(n1, rd, i) && SpotOk(n1, c, i, Kids(c, i))
    {
      assert c[i] == d[i] && SpotOk(n, c, i, Kids(c, i));
    }
    forall y | y in n1 && !Listed(c, y)
      ensures n1[y].slots == NO_CHILDREN
    {
      assert y == p.main || Listed(c, y);
    }
    assert SpotOk(n1, c, rd.a, Kids(c, rd.a));
    CreateMirrors(n1, c, p);
  }

  lemma ListedAt(c: seq<Peer>, i: nat)
    requires i < |c|
    ensures Listed(c, c[i].main)
  {
  }

  lemma CreateMirrors(n1: Net, c: seq<Peer>, p: Peer)
    requires GoodLayout(c + [p]) && |c| > 0
    requires forall i :: 0 <= i < |c| ==> SpotOk(n1, c, i, Kids(c, i))
    requires p.main in n1 && n1[p.main] == Proc(p, NO_CHILDREN)
    requires forall y :: y in n1 ==> y == p.main || Listed(c, y)
    ensures var rd := CreateRound(c, p);
            c[rd.a].main in n1
            && React(n1[c[rd.a].main].self.id, n1[c[rd.a].main].slots, rd.req).Act?
            && Mirrors(Effect(n1, c[rd.a].main, rd.req), c + [p])
  {
    var rd := CreateRound(c, p);
    var d, x := c + [p], c[rd.a].main;
    assert SpotOk(n1, c, rd.a, Kids(c, rd.a));
    assert forall i :: 0 <= i < |c| ==> c[i] == d[i];
    assert d[|c|] == p;
    assert Attach(Kids(c, rd.a), p) == Kids(d, rd.a);
    var n2 := Effect(n1, x, rd.req);
    forall i | 0 <= i < |d|
      ensures SpotOk(n2, d, i, Kids(d, i))
    {
      if i < |c| && i != rd.a {
        assert SpotOk(n1, c, i, Kids(c, i)) && d[i].main != d[rd.a].main;
      }
    }
    forall y | y in n2
      ensures Listed(d, y)
    {
      if y == p.main {
        ListedAt(d, |c|);
      } else {
        assert y in n1 && Listed(c, y);
        var j :| 0 <= j < |c| && c[j].main == y;
        ListedAt(d, j);
      }
    }
  }

  // ---- Executing: the target only answers ----

  lemma ExecLeadsOn(n: Net, c: seq<Peer>, k: nat)
    requires GoodLayout(c) && 0 < k < |c| && Mirrors(n, c)
    ensures var rd := Round(Request(Exec, c[k].id, 0, 0, 0), c, k);
            FloodLeadsTo(n, rd, c[k].main) && Effect(n, c[k].main, rd.req) == n
  {
    var rd := Round(Request(Exec, c[k].id, 0, 0, 0), c, k);
    assert SpotOk(n, c, k, Kids(c, k));
    forall i | 0 <= i < |c| && i != k
      ensures React(c[i].id, Kids(c, i), rd.req).Forward?
    {
      assert c[i].id != c[k].id;
    }
    MirrorFlood(n, c, rd);
    ExecChangesNothing(n, c, k);
  }

  lemma ExecChangesNothing(n: Net, c: seq<Peer>, k: nat)
    requires 0 < k < |c| && c[k].main in n && n[c[k].main] == Proc(c[k], Kids(c, k))
    ensures var req := Request(Exec, c[k].id, 0, 0, 0);
            React(n[c[k].main].self.id, n[c[k].main].slots, req) == Act(Kids(c, k), false)
            && Effect(n, c[k].main, req) == n
  {
  }
}
