// The shapes the network goes through while a removal script runs, and what each step does to them.
module Phases {
  import opened Overlay
  import opened HeapShape
  import opened Flood
  import TreeArray

  // The network is the array heap c: everybody is alive and holds the children the array gives it.
  ghost predicate Mirrors(n: Net, c: seq<Peer>) {
    && (forall i {:trigger SpotOk(n, c, i, Kids(c, i))} :: 0 <= i < |c| ==> SpotOk(n, c, i, Kids(c, i)))
    && (forall x {:trigger Listed(c, x)} :: x in n ==> Listed(c, x))
  }

  ghost predicate SpotOk(n: Net, c: seq<Peer>, i: nat, s: Slots)
    requires i < |c|
  {
    c[i].main in n && n[c[i].main] == Proc(c[i], s)
  }

  // Where everybody stands before step s of the script that removes entry k: the last entry is
  // taken out by step 1 and put into the hole by step 4.
  function Placed(c: seq<Peer>, k: nat, s: nat): seq<Peer>
    requires |c| > 0
  {
    if s <= 1 then c
    else if s <= 4 || k >= |c| - 1 then c[..|c| - 1]
    else c[..|c| - 1][k := c[|c| - 1]]
  }

  function PhaseSlots(d: seq<Peer>, k: nat, s: nat, i: nat): Slots {
    if i == k && s == 5 then NO_CHILDREN
    else if i == k && s == 6 then Slots(Kid(d, 2 * k + 1), NO_PEER)
    else if s == 4 && k > 0 && i == Parent(k) then
      if k == 2 * i + 1 then Slots(NO_PEER, Kid(d, 2 * i + 2)) else Slots(Kid(d, 2 * i + 1), NO_PEER)
    else Kids(d, i)
  }

  // The network before step s, when entry k goes and is not the last one.
  ghost predicate Phase(n: Net, c: seq<Peer>, k: nat, s: nat)
    requires 0 < k < |c| - 1
  {
    var d, last := Placed(c, k, s), c[|c| - 1];
    && (forall i {:trigger SpotOk(n, d, i, PhaseSlots(d, k, s, i))} ::
          0 <= i < |d| && (i == k ==> s <= 2 || s >= 5) ==> SpotOk(n, d, i, PhaseSlots(d, k, s, i)))
    && (2 <= s <= 4 ==> last.main in n && n[last.main] == Proc(last, NO_CHILDREN))
    && (forall x {:trigger Listed(c, x)} :: x in n ==> Listed(c, x))
    && (s >= 3 ==> c[k].main !in n)
  }

  function RequestAt(c: seq<Peer>, k: nat, s: nat): Request
    requires 0 < k < |c| - 1
  {
    var last := c[|c| - 1];
    if s == 0 then Request(Ping, c[k].id, 0, 0, 0)
    else if s == 1 then Request(Disconnect, last.id, 0, 0, 0)
    else if s == 2 then Request(Remove, c[k].id, 0, 0, 0)
    else if s == 3 then Request(Disconnect, c[k].id, 0, 0, 0)
    else if s == 4 then Request(Connect, last.id, c[Parent(k)].id, last.main, last.ping)
    else
      var kid := if s == 5 then Kid(c, 2 * k + 1) else Kid(c, 2 * k + 2);
      Request(Connect, kid.id, last.id, kid.main, kid.ping)
  }

  // The index of the node that acts on step s.
  function ActorAt(c: seq<Peer>, k: nat, s: nat): nat
    requires 0 < k < |c| - 1
  {
    if s == 1 then Parent(|c| - 1) else if s == 3 || s == 4 then Parent(k) else k
  }

  // How many steps the script has: a child of the hole is reconnected if it is still there.
  function Steps(c: seq<Peer>, k: nat): nat {
    5 + (if 2 * k + 1 < |c| - 1 then 1 else 0) + (if 2 * k + 2 < |c| - 1 then 1 else 0)
  }

  // What the node that step s is meant for does is exactly what leads to the next shape.
  ghost predicate StepActs(n: Net, c: seq<Peer>, k: nat, s: nat)
    requires 0 < k < |c| - 1 && ActorAt(c, k, s) < |Placed(c, k, s)|
  {
    var x := Placed(c, k, s)[ActorAt(c, k, s)].main;
    && x in n && React(n[x].self.id, n[x].slots, RequestAt(c, k, s)).Act?
    && Phase(Effect(n, x, RequestAt(c, k, s)), c, k, s + 1)
  }

  lemma PlacedGood(c: seq<Peer>, k: nat, s: nat)
    requires GoodLayout(c) && 0 < k < |c| - 1
    ensures GoodLayout(Placed(c, k, s)) && ActorAt(c, k, s) < |Placed(c, k, s)|
  {
  }

  lemma SpotAt(n: Net, c: seq<Peer>, k: nat, s: nat, i: nat)
    requires 0 < k < |c| - 1 && Phase(n, c, k, s) && i < |Placed(c, k, s)| && (i == k ==> s <= 2 || s >= 5)
    ensures var d := Placed(c, k, s); d[i].main in n && n[d[i].main] == Proc(d[i], PhaseSlots(d, k, s, i))
  {
    assert SpotOk(n, Placed(c, k, s), i, PhaseSlots(Placed(c, k, s), k, s, i));
  }

  lemma Step0(n: Net, c: seq<Peer>, k: nat)
    requires GoodLayout(c) && 0 < k < |c| - 1 && Phase(n, c, k, 0)
    ensures ActorAt(c, k, 0) < |Placed(c, k, 0)| && StepActs(n, c, k, 0)
  {
    SpotAt(n, c, k, 0, k);
    var n' := Effect(n, c[k].main, RequestAt(c, k, 0));
    forall i | 0 <= i < |c|
      ensures SpotOk(n', c, i, PhaseSlots(c, k, 1, i))
    {
      SpotAt(n, c, k, 0, i);
    }
  }

  lemma Step1(n: Net, c: seq<Peer>, k: nat)
    requires GoodLayout(c) && 0 < k < |c| - 1 && Phase(n, c, k, 1)
    ensures ActorAt(c, k, 1) < |Placed(c, k, 1)| && StepActs(n, c, k, 1)
  {
    var q, d := Parent(|c| - 1), Placed(c, k, 2);
    SpotAt(n, c, k, 1, q);
    var n' := Effect(n, c[q].main, RequestAt(c, k, 1));
    forall i | 0 <= i < |d|
      ensures SpotOk(n', d, i, PhaseSlots(d, k, 2, i))
    {
      SpotAt(n, c, k, 1, i);
    }
    SpotAt(n, c, k, 1, |c| - 1);
  }

  lemma Step2(n: Net, c: seq<Peer>, k: nat)
    requires GoodLayout(c) && 0 < k < |c| - 1 && Phase(n, c, k, 2)
    ensures ActorAt(c, k, 2) < |Placed(c, k, 2)| && StepActs(n, c, k, 2)
  {
    var d := Placed(c, k, 2);
    SpotAt(n, c, k, 2, k);
    var n' := Effect(n, c[k].main, RequestAt(c, k, 2));
    forall i {:trigger SpotOk(n', d, i, PhaseSlots(d, k, 3, i))} | 0 <= i < |d|
      ensures i != k ==> SpotOk(n', d, i, PhaseSlots(d, k, 3, i))
    {
      if i != k {
        SpotAt(n, c, k, 2, i);
      }
    }
  }

  lemma Step3(n: Net, c: seq<Peer>, k: nat)
    requires GoodLayout(c) && 0 < k < |c| - 1 && Phase(n, c, k, 3)
    ensures ActorAt(c, k, 3) < |Placed(c, k, 3)| && StepActs(n, c, k, 3)
  {
    var d, p := Placed(c, k, 3), Parent(k);
    SpotAt(n, c, k, 3, p);
    var n' := Effect(n, d[p].main, RequestAt(c, k, 3));
    forall i {:trigger SpotOk(n', d, i, PhaseSlots(d, k, 4, i))} | 0 <= i < |d|
      ensures i != k ==> SpotOk(n', d, i, PhaseSlots(d, k, 4, i))
    {
      if i != k {
        SpotAt(n, c, k, 3, i);
      }
    }
  }

  lemma Step4(n: Net, c: seq<Peer>, k: nat)
    requires GoodLayout(c) && 0 < k < |c| - 1 && Phase(n, c, k, 4)
    ensures ActorAt(c, k, 4) < |Placed(c, k, 4)| && StepActs(n, c, k, 4)
  {
    var b, d, p := Placed(c, k, 4), Placed(c, k, 5), Parent(k);
    SpotAt(n, c, k, 4, p);
    var n' := Effect(n, b[p].main, RequestAt(c, k, 4));
    forall i | 0 <= i < |d|
      ensures SpotOk(n', d, i, PhaseSlots(d, k, 5, i))
    {
      if i != k {
        SpotAt(n, c, k, 4, i);
      }
    }
  }

  lemma Step56(n: Net, c: seq<Peer>, k: nat, s: nat)
    requires GoodLayout(c) && 0 < k < |c| - 1 && 5 <= s < Steps(c, k) && Phase(n, c, k, s)
    ensures ActorAt(c, k, s) < |Placed(c, k, s)| && StepActs(n, c, k, s)
  {
    var d := Placed(c, k, s);
    SpotAt(n, c, k, s, k);
    var n', t := Effect(n, d[k].main, RequestAt(c, k, s)), s + 1;
    forall i | 0 <= i < |d|
      ensures SpotOk(n', d, i, PhaseSlots(d, k, t, i))
    {
      SpotAt(n, c, k, s, i);
    }
  }

  // ---- Each step is a flood on which exactly one node acts ----

  lemma PhaseLinks(n: Net, c: seq<Peer>, k: nat, s: nat)
    requires GoodLayout(c) && 0 < k < |c| - 1 && Phase(n, c, k, s)
    ensures LinksFollow(n, Placed(c, k, s))
  {
    var d := Placed(c, k, s);
    forall i | 0 <= i < |d|
      ensures SlotsFit(n, d, i)
    {
      if i != k || s <= 2 || s >= 5 {
        SpotAt(n, c, k, s, i);
      }
    }
    forall x | x in n && !Listed(d, x)
      ensures n[x].slots == NO_CHILDREN
    {
      PhaseUnplaced(n, c, k, s, x);
    }
  }

  lemma PhaseUnplaced(n: Net, c: seq<Peer>, k: nat, s: nat, x: int)
    requires GoodLayout(c) && 0 < k < |c| - 1 && Phase(n, c, k, s)
    requires x in n && !Listed(Placed(c, k, s), x)
    ensures 2 <= s <= 4 && x == c[|c| - 1].main
  {
    var d := Placed(c, k, s);
    assert forall j :: 0 <= j < |c| - 1 && (s < 5 || j != k) ==> c[j] == d[j];
    assert s >= 5 ==> d[k] == c[|c| - 1];
    assert Listed(c, x);
    var j :| 0 <= j < |c| && c[j].main == x;
  }

  // Nobody above the acting node takes the request for its own.
  lemma OthersForward(c: seq<Peer>, k: nat, s: nat, i: nat)
    requires GoodLayout(c) && 0 < k < |c| - 1 && s < Steps(c, k) && i < |Placed(c, k, s)|
    requires i != ActorAt(c, k, s) && Visited(ActorAt(c, k, s), i)
    ensures PhaseSlots(Placed(c, k, s), k, s, i) == Kids(Placed(c, k, s), i)
    ensures i == k ==> s <= 2 || s >= 5
    ensures React(Placed(c, k, s)[i].id, Kids(Placed(c, k, s), i), RequestAt(c, k, s)).Forward?
  {
    if i > 0 {
      VisitedStep(ActorAt(c, k, s), i);
    }
    var d := Placed(c, k, s);
    PlacedGood(c, k, s);
    if s == 4 {
      assert forall j :: 0 <= j < |d| ==> d[j] == c[j];
    }
  }

  lemma PhaseFlood(n: Net, c: seq<Peer>, k: nat, s: nat)
    requires GoodLayout(c) && 0 < k < |c| - 1 && s < Steps(c, k) && Phase(n, c, k, s)
    ensures ActorAt(c, k, s) < |Placed(c, k, s)| && StepActs(n, c, k, s)
    ensures ProperFlood(n, Round(RequestAt(c, k, s), Placed(c, k, s), ActorAt(c, k, s)),
                        Effect(n, Placed(c, k, s)[ActorAt(c, k, s)].main, RequestAt(c, k, s)))
  {
    var rd := Round(RequestAt(c, k, s), Placed(c, k, s), ActorAt(c, k, s));
    PlacedGood(c, k, s);
    PhaseLinks(n, c, k, s);
    PhaseStep(n, c, k, s);
    forall i | 0 <= i < |rd.c|
      ensures Intact(n, rd, i)
    {
      if Visited(rd.a, i) {
        if i == rd.a {
          SpotAt(n, c, k, s, i);
        } else {
          OthersForward(c, k, s, i);
          SpotAt(n, c, k, s, i);
        }
      }
    }
  }

  lemma PhaseStep(n: Net, c: seq<Peer>, k: nat, s: nat)
    requires GoodLayout(c) && 0 < k < |c| - 1 && s < Steps(c, k) && Phase(n, c, k, s)
    ensures ActorAt(c, k, s) < |Placed(c, k, s)| && StepActs(n, c, k, s)
  {
    if s == 0 { Step0(n, c, k); }
    else if s == 1 { Step1(n, c, k); }
    else if s == 2 { Step2(n, c, k); }
    else if s == 3 { Step3(n, c, k); }
    else if s == 4 { Step4(n, c, k); }
    else { Step56(n, c, k, s); }
  }

  // ---- The ends of the script ----

  lemma PhaseBegins(n: Net, c: seq<Peer>, k: nat)
    requires GoodLayout(c) && 0 < k < |c| - 1 && Mirrors(n, c)
    ensures Phase(n, c, k, 0)
  {
    forall i | 0 <= i < |c|
      ensures SpotOk(n, c, i, PhaseSlots(c, k, 0, i))
    {
      assert SpotOk(n, c, i, Kids(c, i));
    }
  }

  // After the last step the network mirrors the array with the last entry moved into the hole.
  lemma PhaseEnds(n: Net, c: seq<Peer>, k: nat)
    requires GoodLayout(c) && 0 < k < |c| - 1 && Phase(n, c, k, Steps(c, k))
    ensures Mirrors(n, TreeArray.Without(c, k))
  {
    var d := Placed(c, k, 5);
    assert d == TreeArray.Without(c, k);
    forall i | 0 <= i < |d|
      ensures SpotOk(n, d, i, Kids(d, i))
    {
      SpotAt(n, c, k, Steps(c, k), i);
    }
    forall x | x in n
      ensures Listed(d, x)
    {
      if !Listed(d, x) {
        PhaseUnplaced(n, c, k, Steps(c, k), x);
      }
    }
  }
}
