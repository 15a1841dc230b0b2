// One heartbeat ping on its way down the tree and the pongs on their way up, with every socket
// served in any order.
module PingWave {
  import opened Overlay
  import opened HeapShape
  import opened HeapWalk
  import opened Naturals
  import opened Phases
  import opened TreeArray
  import opened Controller
  import opened Scripts
  import opened TreeSystem
  import opened TreeLedger
  import opened TreeRuns
  import opened TreeTheorems
  import Heartbeat

  // A pong is held by the process that has to pass it on next.
  datatype Pong = Pong(at: int, id: int)

  // Pings by the port they were sent to, and the pongs the controller has read.
  datatype Wave = Wave(pings: seq<int>, pongs: seq<Pong>, heard: seq<int>)

  datatype Beat = TakePing(k: nat, x: int) | PassPong(k: nat, y: int)

  function Launched(n: Net): Wave
    requires 0 in n
  {
    Wave(PingBoth(n[0].slots), [], [])
  }

  function Cut<T>(s: seq<T>, k: nat): seq<T>
    requires k < |s|
  {
    s[..k] + s[k + 1..]
  }

  // y holds the other end of the ping socket that x is bound to.
  predicate Feeds(n: Net, y: int, x: int)
    requires x in n && y in n
  {
    n[x].self.ping != 0 && (n[y].slots.left.ping == n[x].self.ping || n[y].slots.right.ping == n[x].self.ping)
  }

  predicate CanBeat(n: Net, w: Wave, b: Beat) {
    match b
    case TakePing(k, x) => k < |w.pings| && x in n && x != 0 && n[x].self.ping == w.pings[k]
    case PassPong(k, y) => k < |w.pongs| && y in n && w.pongs[k].at in n && Feeds(n, y, w.pongs[k].at)
  }

  function Beaten(n: Net, w: Wave, b: Beat): Wave
    requires CanBeat(n, w, b)
  {
    match b
    case TakePing(k, x) =>
      Wave(Cut(w.pings, k) + PingBoth(n[x].slots), w.pongs + [Pong(x, n[x].self.id)], w.heard)
    case PassPong(k, y) =>
      if y == 0 then Wave(w.pings, Cut(w.pongs, k), w.heard + [w.pongs[k].id])
      else w.(pongs := w.pongs[k := Pong(y, w.pongs[k].id)])
  }

  predicate CanRun(n: Net, w: Wave, bs: seq<Beat>)
    decreases |bs|
  {
    bs == [] || (CanBeat(n, w, bs[0]) && CanRun(n, Beaten(n, w, bs[0]), bs[1..]))
  }

  function Ran(n: Net, w: Wave, bs: seq<Beat>): Wave
    requires CanRun(n, w, bs)
    decreases |bs|
  {
    if bs == [] then w else Ran(n, Beaten(n, w, bs[0]), bs[1..])
  }

  // ---- Who is still to be heard from ----

  ghost predicate PingLayout(c: seq<Peer>) {
    && GoodLayout(c)
    && (forall i :: 0 < i < |c| ==> c[i].ping != 0)
    && (forall i, j :: 0 <= i < j < |c| ==> c[i].ping != c[j].ping)
  }

  function Below(c: seq<Peer>, k: nat): multiset<int>
    decreases if k < |c| then |c| - k else 0
  {
    if k < |c| then multiset{c[k].id} + Below(c, 2 * k + 1) + Below(c, 2 * k + 2) else multiset{}
  }

  function Due(c: seq<Peer>, ix: seq<nat>): multiset<int> {
    if ix == [] then multiset{} else Below(c, ix[0]) + Due(c, ix[1..])
  }

  function Carried(ps: seq<Pong>): multiset<int> {
    if ps == [] then multiset{} else multiset{ps[0].id} + Carried(ps[1..])
  }

  // How many more steps a ping at k causes, and how many a pong at k.
  function Effort(m: nat, k: nat): nat
    decreases if k < m then m - k else 0
  {
    if k < m then Depth(k) + 1 + Effort(m, 2 * k + 1) + Effort(m, 2 * k + 2) else 0
  }

  function Efforts(m: nat, ix: seq<nat>): nat { if ix == [] then 0 else Effort(m, ix[0]) + Efforts(m, ix[1..]) }

  function Depths(ix: seq<nat>): nat { if ix == [] then 0 else Depth(ix[0]) + Depths(ix[1..]) }

  // ps and hs are the entries the pings and the pongs stand at.
  ghost predicate Standing(c: seq<Peer>, w: Wave, ps: seq<nat>, hs: seq<nat>) {
    && |ps| == |w.pings| && |hs| == |w.pongs|
    && (forall k :: 0 <= k < |ps| ==> 0 < ps[k] < |c| && w.pings[k] == c[ps[k]].ping)
    && (forall k :: 0 <= k < |hs| ==> 0 < hs[k] < |c| && w.pongs[k].at == c[hs[k]].main)
  }

  function Owed(c: seq<Peer>, w: Wave, ps: seq<nat>): multiset<int> {
    multiset(w.heard) + Carried(w.pongs) + Due(c, ps)
  }

  function Ahead(c: seq<Peer>, ps: seq<nat>, hs: seq<nat>): nat { Efforts(|c|, ps) + Depths(hs) }

  // ---- Cutting and appending ----

  lemma CutRest<T>(s: seq<T>, k: nat)
    requires 0 < k < |s|
    ensures Cut(s, k) != [] && Cut(s, k)[0] == s[0] && Cut(s, k)[1..] == Cut(s[1..], k - 1)
  {
  }

  lemma {:induction false} CutPings(c: seq<Peer>, ix: seq<nat>, k: nat)
    requires k < |ix|
    ensures Due(c, ix) == Due(c, Cut(ix, k)) + Below(c, ix[k])
    ensures Efforts(|c|, ix) == Efforts(|c|, Cut(ix, k)) + Effort(|c|, ix[k])
  {
    hide Below, Effort;
    if k > 0 {
      CutRest(ix, k);
      CutPings(c, ix[1..], k - 1);
    } else {
      assert Cut(ix, 0) == ix[1..];
    }
  }

  lemma {:induction false} CutPongs(ps: seq<Pong>, hs: seq<nat>, k: nat)
    requires k < |ps| == |hs|
    ensures Carried(ps) == Carried(Cut(ps, k)) + multiset{ps[k].id}
    ensures Depths(hs) == Depths(Cut(hs, k)) + Depth(hs[k])
  {
    hide Depth;
    if k > 0 {
      CutRest(ps, k);
      CutRest(hs, k);
      CutPongs(ps[1..], hs[1..], k - 1);
    } else {
      assert Cut(ps, 0) == ps[1..] && Cut(hs, 0) == hs[1..];
    }
  }

  lemma {:induction false} MovePong(ps: seq<Pong>, hs: seq<nat>, k: nat, y: int, p: nat)
    requires k < |ps| == |hs|
    ensures Carried(ps[k := Pong(y, ps[k].id)]) == Carried(ps)
    ensures Depths(hs[k := p]) + Depth(hs[k]) == Depths(hs) + Depth(p)
  {
    hide Depth;
    var qs, gs := ps[k := Pong(y, ps[k].id)], hs[k := p];
    if k > 0 {
      assert qs[1..] == ps[1..][k - 1 := Pong(y, ps[k].id)] && gs[1..] == hs[1..][k - 1 := p];
      MovePong(ps[1..], hs[1..], k - 1, y, p);
    } else {
      assert qs[1..] == ps[1..] && gs[1..] == hs[1..];
    }
  }

  lemma {:induction false} AddPings(c: seq<Peer>, ix: seq<nat>, more: seq<nat>)
    ensures Due(c, ix + more) == Due(c, ix) + Due(c, more)
    ensures Efforts(|c|, ix + more) == Efforts(|c|, ix) + Efforts(|c|, more)
  {
    hide Below, Effort;
    if ix == [] {
      assert ix + more == more;
    } else {
      assert (ix + more)[1..] == ix[1..] + more;
      AddPings(c, ix[1..], more);
    }
  }

  lemma {:induction false} AddPong(ps: seq<Pong>, hs: seq<nat>, q: Pong, h: nat)
    requires |ps| == |hs|
    ensures Carried(ps + [q]) == Carried(ps) + multiset{q.id}
    ensures Depths(hs + [h]) == Depths(hs) + Depth(h)
  {
    hide Depth;
    if ps == [] {
      assert (ps + [q])[1..] == [] && (hs + [h])[1..] == [];
    } else {
      assert (ps + [q])[1..] == ps[1..] + [q] && (hs + [h])[1..] == hs[1..] + [h];
      AddPong(ps[1..], hs[1..], q, h);
    }
  }

  // ---- One step ----

  // The entries the two slots of entry i point to.
  function KidSpots(m: nat, i: nat): seq<nat> {
    (if 2 * i + 1 < m then [2 * i + 1] else []) + (if 2 * i + 2 < m then [2 * i + 2] else [])
  }

  lemma KidPings(c: seq<Peer>, i: nat)
    requires PingLayout(c) && i < |c|
    ensures var ps, ix := PingBoth(Kids(c, i)), KidSpots(|c|, i);
            |ps| == |ix| && forall k :: 0 <= k < |ix| ==> 0 < ix[k] < |c| && ps[k] == c[ix[k]].ping
  {
  }

  lemma {:induction false} DueOfFew(c: seq<Peer>, i: nat, j: nat)
    ensures Due(c, []) == multiset{} && Due(c, [i]) == Below(c, i) && Due(c, [i, j]) == Below(c, i) + Below(c, j)
    ensures Efforts(|c|, []) == 0 && Efforts(|c|, [i]) == Effort(|c|, i)
    ensures Efforts(|c|, [i, j]) == Effort(|c|, i) + Effort(|c|, j)
  {
    hide Below, Effort;
    assert [i][1..] == [] && [j][1..] == [] && [i, j][1..] == [j];
    assert Due(c, [j]) == Below(c, j) && Due(c, [i]) == Below(c, i);
    assert Efforts(|c|, [j]) == Effort(|c|, j);
  }

  lemma BelowOpens(c: seq<Peer>, i: nat)
    requires i < |c|
    ensures Below(c, i) == multiset{c[i].id} + Below(c, 2 * i + 1) + Below(c, 2 * i + 2)
    ensures Effort(|c|, i) == Depth(i) + 1 + Effort(|c|, 2 * i + 1) + Effort(|c|, 2 * i + 2)
  {
    hide Depth;
  }

  lemma {:induction false} BelowNothing(c: seq<Peer>, i: nat)
    requires i >= |c|
    ensures Below(c, i) == multiset{} && Effort(|c|, i) == 0
  {
  }

  lemma {:induction false} KidsDue(c: seq<Peer>, i: nat)
    requires i < |c|
    ensures Below(c, i) == multiset{c[i].id} + Due(c, KidSpots(|c|, i))
    ensures Effort(|c|, i) == Depth(i) + 1 + Efforts(|c|, KidSpots(|c|, i))
  {
    hide Below, Effort, Due, Efforts, Depth;
    var ix := KidSpots(|c|, i);
    BelowOpens(c, i);
    DueOfFew(c, 2 * i + 1, 2 * i + 2);
    if 2 * i + 2 < |c| {
      assert ix == [2 * i + 1, 2 * i + 2];
      Assoc(multiset{c[i].id}, Below(c, 2 * i + 1), Below(c, 2 * i + 2));
    } else {
      BelowNothing(c, 2 * i + 2);
      if 2 * i + 1 < |c| {
        assert ix == [2 * i + 1];
      } else {
        BelowNothing(c, 2 * i + 1);
        assert ix == [];
      }
    }
  }

  lemma Assoc(x: multiset<int>, a: multiset<int>, b: multiset<int>)
    ensures x + a + b == x + (a + b)
  {
  }

  lemma SpotOf(n: Net, c: seq<Peer>, x: int) returns (i: nat)
    requires PingLayout(c) && Mirrors(n, c) && x in n
    ensures i < |c| && x == c[i].main && n[x] == Proc(c[i], Kids(c, i)) && (x == 0 <==> i == 0)
  {
    assert Flood.Listed(c, x);
    i :| 0 <= i < |c| && c[i].main == x;
    assert SpotOk(n, c, i, Kids(c, i));
  }

  // The process that feeds entry i is the one at its parent.
  lemma FeederIsParent(n: Net, c: seq<Peer>, y: int, i: nat)
    requires PingLayout(c) && Mirrors(n, c) && 0 < i < |c|
    ensures c[i].main in n && c[Parent(i)].main in n
    ensures y in n ==> (Feeds(n, y, c[i].main) <==> y == c[Parent(i)].main)
  {
    assert SpotOk(n, c, i, Kids(c, i));
    assert SpotOk(n, c, Parent(i), Kids(c, Parent(i)));
    assert i == 2 * Parent(i) + 1 || i == 2 * Parent(i) + 2;
    if y in n {
      var j := SpotOf(n, c, y);
    }
  }

  lemma TakeKeeps(n: Net, c: seq<Peer>, w: Wave, ps: seq<nat>, hs: seq<nat>, b: Beat)
    returns (ps': seq<nat>, hs': seq<nat>)
    requires PingLayout(c) && Mirrors(n, c) && Standing(c, w, ps, hs) && b.TakePing? && CanBeat(n, w, b)
    ensures var w' := Beaten(n, w, b);
            Standing(c, w', ps', hs') && Owed(c, w', ps') == Owed(c, w, ps) && Ahead(c, ps', hs') < Ahead(c, ps, hs)
  {
    hide Mirrors, Below, Effort, Depth, Due, Efforts, Depths, Carried;
    var i := SpotOf(n, c, b.x);
    assert i == ps[b.k];
    ps', hs' := Cut(ps, b.k) + KidSpots(|c|, i), hs + [i];
    KidPings(c, i);
    CutPings(c, ps, b.k);
    AddPings(c, Cut(ps, b.k), KidSpots(|c|, i));
    AddPong(w.pongs, hs, Pong(b.x, c[i].id), i);
    KidsDue(c, i);
  }

  lemma PassKeeps(n: Net, c: seq<Peer>, w: Wave, ps: seq<nat>, hs: seq<nat>, b: Beat)
    returns (hs': seq<nat>)
    requires PingLayout(c) && Mirrors(n, c) && Standing(c, w, ps, hs) && b.PassPong? && CanBeat(n, w, b)
    ensures var w' := Beaten(n, w, b);
            Standing(c, w', ps, hs') && Owed(c, w', ps) == Owed(c, w, ps) && Ahead(c, ps, hs') < Ahead(c, ps, hs)
  {
    hide Mirrors, Below, Effort, Due, Efforts, Depths, Carried;
    var i := hs[b.k];
    FeederIsParent(n, c, b.y, i);
    if b.y == 0 {
      hs' := Cut(hs, b.k);
      CutPongs(w.pongs, hs, b.k);
    } else {
      hs' := hs[b.k := Parent(i)];
      MovePong(w.pongs, hs, b.k, b.y, Parent(i));
    }
  }

  lemma {:induction false} RunOwes(n: Net, c: seq<Peer>, w: Wave, ps: seq<nat>, hs: seq<nat>, bs: seq<Beat>)
    returns (ps': seq<nat>, hs': seq<nat>)
    requires PingLayout(c) && Mirrors(n, c) && Standing(c, w, ps, hs) && CanRun(n, w, bs)
    ensures var w' := Ran(n, w, bs);
            && Standing(c, w', ps', hs') && Owed(c, w', ps') == Owed(c, w, ps)
            && |bs| + Ahead(c, ps', hs') <= Ahead(c, ps, hs)
    decreases |bs|
  {
    hide Mirrors, PingLayout, Standing, CanBeat, Beaten, Owed, Ahead;
    ps', hs' := ps, hs;
    if bs != [] {
      if bs[0].TakePing? {
        ps', hs' := TakeKeeps(n, c, w, ps, hs, bs[0]);
      } else {
        hs' := PassKeeps(n, c, w, ps, hs, bs[0]);
      }
      ps', hs' := RunOwes(n, c, Beaten(n, w, bs[0]), ps', hs', bs[1..]);
    }
  }

  // ---- Everybody, once ----

  // The ids of all compute nodes of the array.
  function NodeIds(c: seq<Peer>): (ids: seq<int>)
    ensures |c| > 0 ==> |ids| == |c| - 1 && forall i :: 0 < i < |c| ==> ids[i - 1] == c[i].id
  {
    if |c| <= 1 then [] else NodeIds(c[..|c| - 1]) + [c[|c| - 1].id]
  }

  // The ids at the places of a multiset of indices, by how often each place occurs.
  function Mapped(c: seq<Peer>, ix: seq<nat>): multiset<int> {
    if ix == [] then multiset{}
    else Mapped(c, ix[1..]) + (if ix[0] < |c| then multiset{c[ix[0]].id} else multiset{})
  }

  lemma {:induction false} MappedAppends(c: seq<Peer>, a: seq<nat>, b: seq<nat>)
    ensures Mapped(c, a + b) == Mapped(c, a) + Mapped(c, b)
  {
    if a == [] {
      assert a + b == b;
    } else {
      assert (a + b)[1..] == a[1..] + b;
      MappedAppends(c, a[1..], b);
    }
  }

  lemma {:induction false} MappedOne(c: seq<Peer>, k: nat)
    requires k < |c|
    ensures Mapped(c, [k]) == multiset{c[k].id}
  {
    assert [k][1..] == [];
  }

  lemma {:induction false} MappedCut(c: seq<Peer>, a: seq<nat>, k: nat)
    requires k < |a|
    ensures Mapped(c, a) == Mapped(c, [a[k]]) + Mapped(c, Cut(a, k))
  {
    hide Mapped;
    assert a == a[..k] + ([a[k]] + a[k + 1..]);
    MappedAppends(c, a[..k], [a[k]] + a[k + 1..]);
    MappedAppends(c, [a[k]], a[k + 1..]);
    MappedAppends(c, a[..k], a[k + 1..]);
  }

  lemma CutContents(a: seq<nat>, k: nat)
    requires k < |a|
    ensures multiset(Cut(a, k)) == multiset(a) - multiset{a[k]}
  {
    assert a == a[..k] + ([a[k]] + a[k + 1..]);
  }

  lemma {:induction false} MappedByContents(c: seq<Peer>, a: seq<nat>, b: seq<nat>)
    requires multiset(a) == multiset(b)
    ensures Mapped(c, a) == Mapped(c, b)
    decreases |a|
  {
    hide Mapped, Cut;
    assert |a| == |multiset(a)| == |multiset(b)| == |b|;
    if |a| > 0 {
      assert a[0] in multiset(b);
      var k :| 0 <= k < |b| && b[k] == a[0];
      MappedCut(c, a, 0);
      MappedCut(c, b, k);
      CutContents(a, 0);
      CutContents(b, k);
      CutShorter(a, 0);
      MappedByContents(c, Cut(a, 0), Cut(b, k));
    } else {
      assert a == b;
    }
  }

  lemma CutShorter(a: seq<nat>, k: nat)
    requires k < |a|
    ensures |Cut(a, k)| == |a| - 1
  {
  }

  lemma {:induction false} WalkIsBelow(c: seq<Peer>, k: nat)
    ensures Mapped(c, Walk(|c|, k)) == Below(c, k)
    decreases if k < |c| then |c| - k else 0
  {
    hide Mapped, Below;
    if k < |c| {
      var l, r := Walk(|c|, 2 * k + 1), Walk(|c|, 2 * k + 2);
      WalkIsBelow(c, 2 * k + 1);
      WalkIsBelow(c, 2 * k + 2);
      assert Walk(|c|, k) == [k] + l + r;
      MappedAppends(c, [k] + l, r);
      MappedAppends(c, [k], l);
      MappedOne(c, k);
      BelowOpens(c, k);
    } else {
      BelowNothing(c, k);
      WalkBeyond(|c|, k);
      MappedNone(c);
    }
  }

  lemma {:induction false} MappedNone(c: seq<Peer>)
    ensures Mapped(c, []) == multiset{}
  {
  }

  lemma {:induction false} RangeIsAll(c: seq<Peer>, m: nat)
    requires 0 < m <= |c|
    ensures Mapped(c, Range(0, m)) == multiset{c[0].id} + multiset(NodeIds(c[..m]))
  {
    hide Mapped, NodeIds;
    var r := Range(0, m - 1);
    MappedAppends(c, r, [m - 1]);
    MappedOne(c, m - 1);
    NodeIdsGrow(c, m);
    assert Range(0, m) == r + [m - 1];
    if m > 1 {
      RangeIsAll(c, m - 1);
      Assoc(multiset{c[0].id}, multiset(NodeIds(c[..m - 1])), multiset{c[m - 1].id});
    } else {
      assert r == [];
      MappedNone(c);
    }
  }

  lemma NodeIdsGrow(c: seq<Peer>, m: nat)
    requires 0 < m <= |c|
    ensures multiset(NodeIds(c[..m])) ==
      if m == 1 then multiset{} else multiset(NodeIds(c[..m - 1])) + multiset{c[m - 1].id}
  {
    assert c[..m][..m - 1] == c[..m - 1];
  }

  lemma {:induction false} BelowRootIsAll(c: seq<Peer>)
    requires |c| > 0
    ensures Due(c, KidSpots(|c|, 0)) == multiset(NodeIds(c))
  {
    hide Below, Due;
    WalkCovers(|c|);
    MappedByContents(c, Walk(|c|, 0), Range(0, |c|));
    WalkIsBelow(c, 0);
    RangeIsAll(c, |c|);
    assert c[..|c|] == c;
    KidsDue(c, 0);
    CancelOne(c[0].id, Due(c, KidSpots(|c|, 0)), multiset(NodeIds(c)));
  }

  lemma CancelOne(x: int, a: multiset<int>, b: multiset<int>)
    requires multiset{x} + a == multiset{x} + b
    ensures a == b
  {
    assert (multiset{x} + a) - multiset{x} == a;
    assert (multiset{x} + b) - multiset{x} == b;
  }

  lemma {:induction false} WaveStands(n: Net, c: seq<Peer>)
    requires PingLayout(c) && Mirrors(n, c)
    ensures 0 in n && Standing(c, Launched(n), KidSpots(|c|, 0), [])
    ensures Owed(c, Launched(n), KidSpots(|c|, 0)) == multiset(NodeIds(c))
  {
    assert SpotOk(n, c, 0, Kids(c, 0));
    KidPings(c, 0);
    BelowRootIsAll(c);
  }

  // As long as something is under way, somebody can take a step.
  lemma WaveMoves(n: Net, c: seq<Peer>, w: Wave, ps: seq<nat>, hs: seq<nat>) returns (b: Beat)
    requires PingLayout(c) && Mirrors(n, c) && Standing(c, w, ps, hs) && (w.pings != [] || w.pongs != [])
    ensures CanBeat(n, w, b)
  {
    if w.pings != [] {
      assert SpotOk(n, c, ps[0], Kids(c, ps[0]));
      b := TakePing(0, c[ps[0]].main);
    } else {
      FeederIsParent(n, c, c[Parent(hs[0])].main, hs[0]);
      b := PassPong(0, c[Parent(hs[0])].main);
    }
  }

  // However the sockets are served, a ping round on a mirrored network comes to an end, and by then
  // the controller has read exactly one pong of every compute node; before that, never two.
  lemma {:induction false} WaveHearsEveryone(n: Net, c: seq<Peer>, bs: seq<Beat>)
    requires PingLayout(c) && Mirrors(n, c) && 0 in n && CanRun(n, Launched(n), bs)
    ensures var w := Ran(n, Launched(n), bs);
            && multiset(w.heard) <= multiset(NodeIds(c))
            && |bs| <= Ahead(c, KidSpots(|c|, 0), [])
            && ((exists b :: CanBeat(n, w, b)) || multiset(w.heard) == multiset(NodeIds(c)))
  {
    hide Mirrors, PingLayout, CanBeat;
    WaveStands(n, c);
    var ps, hs := RunOwes(n, c, Launched(n), KidSpots(|c|, 0), [], bs);
    var w := Ran(n, Launched(n), bs);
    if w.pings != [] || w.pongs != [] {
      var b := WaveMoves(n, c, w, ps, hs);
    }
  }

  // ---- The heartbeat of a running system ----

  lemma {:induction false} TreePings(t: seq<TreeNode>, self: int, nextPort: int)
    requires TreeOk(t, self, nextPort)
    ensures PingLayout(Layout(t))
  {
    var c := Layout(t);
    TreeLayout(t, self, nextPort);
    forall i, j | 0 <= i < j < |c|
      ensures c[i].ping != c[j].ping
    {
      assert Apart(t, i, j);
    }
  }

  lemma TailGrows(t: seq<TreeNode>, self: int, nextPort: int, m: nat)
    requires TreeOk(t, self, nextPort) && 1 < m <= |t|
    ensures TailIds(t, m) == TailIds(t, m - 1) + {t[m - 1].id} && t[m - 1].id !in TailIds(t, m - 1)
  {
    forall i | 0 < i < m - 1
      ensures t[i].id != t[m - 1].id
    {
      assert Apart(t, i, m - 1);
    }
  }

  lemma OneMore(a: set<int>, x: int)
    requires x !in a
    ensures multiset(a + {x}) == multiset(a) + multiset{x}
  {
  }

  lemma {:induction false} NodesAreRegistered(t: seq<TreeNode>, self: int, nextPort: int, m: nat)
    requires TreeOk(t, self, nextPort) && 0 < m <= |t|
    ensures multiset(NodeIds(Layout(t)[..m])) == multiset(TailIds(t, m))
  {
    hide TreeOk, NodeIds;
    var c := Layout(t);
    NodeIdsGrow(c, m);
    if m > 1 {
      hide TailIds;
      NodesAreRegistered(t, self, nextPort, m - 1);
      TailGrows(t, self, nextPort, m);
      OneMore(TailIds(t, m - 1), t[m - 1].id);
    } else {
      assert TailIds(t, 1) == {};
    }
  }

  // Whenever no create or removal is open, a ping round of the running network, served in any order until
  // nothing is left to do, brings one pong of every registered node; no counter is left raised.
  lemma {:induction false} RoundOfLiveTree(self: int, acts: seq<Action>, bs: seq<Beat>)
    requires self != -1 && Runnable(TreeTheorems.Start(self), acts) && Calm(Run(TreeTheorems.Start(self), acts))
    ensures var s := Run(TreeTheorems.Start(self), acts);
            var n := Whole(s.net, s.ctl.slots);
            CanRun(n, Launched(n), bs) && !(exists b :: CanBeat(n, Ran(n, Launched(n), bs), b)) ==>
              var heard := Ran(n, Launched(n), bs).heard;
              && multiset(heard) == multiset(s.ctl.pings.Keys)
              && forall x :: x in s.ctl.pings ==> Heartbeat.AfterRound(s.ctl.pings, heard)[x] == 0
  {
    hide Runnable, Run, TreeOk, Mirrors, PingLayout, CanBeat, TailIds, NodeIds, Ran, Sequential;
    RunRefinesArray(self, acts);
    var s := Run(TreeTheorems.Start(self), acts);
    var n, t := Whole(s.net, s.ctl.slots), s.ctl.tree;
    var c := Layout(t);
    TreePings(t, s.ctl.self, s.ctl.nextPort);
    if CanRun(n, Launched(n), bs) && !(exists b :: CanBeat(n, Ran(n, Launched(n), bs), b)) {
      WaveHearsEveryone(n, c, bs);
      TreeNotEmpty(t, s.ctl.self, s.ctl.nextPort);
      NodesAreRegistered(t, s.ctl.self, s.ctl.nextPort, |t|);
      assert c[..|c|] == c;
      var heard := Ran(n, Launched(n), bs).heard;
      forall x | x in s.ctl.pings
        ensures x in heard
      {
        assert x in multiset(heard);
      }
    }
  }

  lemma TreeNotEmpty(t: seq<TreeNode>, self: int, nextPort: int)
    requires TreeOk(t, self, nextPort)
    ensures |t| > 0
  {
  }
}
