// The user's commands and the reports the controller makes of them: which report answers which
// command, and what each command means on the plain list of ids.
module TreeLedger {
  import opened Overlay
  import opened TreeArray
  import opened Controller
  import opened Flood

  // `pid` is what fork returns for the new node.
  datatype Wish = CreateNode(id: int, pid: int) | RemoveNode(id: int) | ExecNode(id: int)

  // Where an id stands in the list of ids, or the length.
  function Where(ids: seq<int>, id: int): (i: nat)
    ensures i <= |ids|
  {
    if ids == [] then 0 else if ids[0] == id then 0 else 1 + Where(ids[1..], id)
  }

  lemma {:induction false} WhereIs(t: seq<TreeNode>, id: int)
    ensures Where(Ids(t), id) == IndexOf(t, id)
  {
    if t != [] {
      assert Ids(t)[1..] == Ids(t[1..]);
      WhereIs(t[1..], id);
    }
  }

  // What a command does to the list of ids, the control node's first: the sequential meaning.
  function Commanded(ids: seq<int>, w: Wish): seq<int> {
    var i := Where(ids, w.id);
    match w
    case CreateNode(id, _) => if i < |ids| then ids else ids + [id]
    case RemoveNode(_) => if 0 < i < |ids| then Without(ids, i) else ids
    case ExecNode(_) => ids
  }

  // A command together with the ids it was given for.
  datatype Order = Order(wish: Wish, ids: seq<int>)

  // The one report a command may draw while every process is alive.  Whether an exec ends well or in
  // an error of the node's own is up to the node.
  predicate Fits(rep: Report, o: Order) {
    var i := Where(o.ids, o.wish.id);
    match o.wish
    case CreateNode(_, pid) => rep == if i < |o.ids| then ErrExists else CreateOk(pid)
    case RemoveNode(_) => rep == if i == |o.ids| then ErrNotFound else if i == 0 then ErrControl else RemoveOk
    case ExecNode(id) =>
      if i == |o.ids| then rep == ErrNotFound
      else if i == 0 then rep == ErrControl
      else rep == ExecOk(id) || rep == ExecError(id)
  }

  // told[j] is the command that report j answers, open[r] the one that request r is part of.
  datatype Book = Book(orders: seq<Order>, told: seq<nat>, open: map<nat, nat>)

  ghost predicate Pending(b: Book, i: nat) { exists r :: r in b.open && b.open[r] == i }

  // Every command is either answered, once, or open, in one request.
  ghost predicate BookOk(b: Book) {
    && (forall j :: 0 <= j < |b.told| ==> b.told[j] < |b.orders|)
    && (forall i, j :: 0 <= i < j < |b.told| ==> b.told[i] != b.told[j])
    && (forall r :: r in b.open ==> b.open[r] < |b.orders| && b.open[r] !in b.told)
    && (forall r, u :: r in b.open && u in b.open && r != u ==> b.open[r] != b.open[u])
    && (forall i: nat :: i < |b.orders| ==> i in b.told || Pending(b, i))
  }

  ghost predicate LogFits(b: Book, log: seq<Report>)
    requires BookOk(b)
  {
    |log| == |b.told| && forall j :: 0 <= j < |log| ==> Fits(log[j], b.orders[b.told[j]])
  }

  // Request rd carries out command o.
  predicate Asked(t: seq<TreeNode>, rd: Round, o: Order) {
    var i := Where(o.ids, o.wish.id);
    match o.wish
    case CreateNode(id, pid) =>
      && rd.req.cmd == Create && rd.req.id == id && i == |o.ids|
      && IndexOf(t, id) < |t| && Find(t, id).pid == pid
    case RemoveNode(_) => 0 < i < |o.ids| && !rd.req.cmd.Create? && !rd.req.cmd.Exec?
    case ExecNode(id) => rd.req.cmd == Exec && rd.req.id == id && 0 < i < |o.ids|
  }

  ghost predicate AllAsked(b: Book, c: Ctl, h: History)
    requires BookOk(b)
  {
    && b.open.Keys == c.counts.Keys
    && (forall r :: r in b.open ==> r < Now(h) && Asked(c.tree, h.rounds[r], b.orders[b.open[r]]))
  }

  ghost predicate Ledger(b: Book, c: Ctl, h: History) { BookOk(b) && LogFits(b, c.log) && AllAsked(b, c, h) }

  // ---- The four things that happen to the ledger ----

  function Told(b: Book, r: nat): Book
    requires r in b.open
  {
    Book(b.orders, b.told + [b.open[r]], b.open - {r})
  }

  function Moved(b: Book, r: nat, u: nat): Book
    requires r in b.open
  {
    Book(b.orders, b.told, map[u := b.open[r]])
  }

  function AtOnce(b: Book, o: Order): Book { Book(b.orders + [o], b.told + [|b.orders|], b.open) }

  function Opened(b: Book, o: Order, r: nat): Book { Book(b.orders + [o], b.told, b.open[r := |b.orders|]) }

  lemma ToldOk(b: Book, r: nat)
    requires BookOk(b) && r in b.open
    ensures BookOk(Told(b, r))
  {
    var b' := Told(b, r);
    forall i: nat | i < |b.orders|
      ensures i in b'.told || Pending(b', i)
    {
      if i !in b.told && i != b.open[r] {
        var u :| u in b.open && b.open[u] == i;
        assert u in b'.open && b'.open[u] == i;
      } else {
        assert i in b.told ==> i in b'.told;
        assert b'.told[|b.told|] == b.open[r];
      }
    }
  }

  lemma MovedOk(b: Book, r: nat, u: nat)
    requires BookOk(b) && b.open.Keys == {r}
    ensures BookOk(Moved(b, r, u))
  {
    var b' := Moved(b, r, u);
    forall i: nat | i < |b.orders|
      ensures i in b'.told || Pending(b', i)
    {
      if i !in b.told {
        assert Pending(b, i);
        assert u in b'.open && b'.open[u] == i;
      }
    }
  }

  lemma AtOnceOk(b: Book, o: Order)
    requires BookOk(b)
    ensures BookOk(AtOnce(b, o))
  {
    var b' := AtOnce(b, o);
    forall i: nat | i < |b'.orders|
      ensures i in b'.told || Pending(b', i)
    {
      if i < |b.orders| {
        if i !in b.told {
          var u :| u in b.open && b.open[u] == i;
          assert u in b'.open && b'.open[u] == i;
        }
      } else {
        assert b'.told[|b.told|] == i;
      }
    }
  }

  lemma OpenedOk(b: Book, o: Order, r: nat)
    requires BookOk(b) && r !in b.open
    ensures BookOk(Opened(b, o, r))
  {
    var b' := Opened(b, o, r);
    forall i: nat | i < |b'.orders|
      ensures i in b'.told || Pending(b', i)
    {
      if i < |b.orders| {
        if i !in b.told {
          var u :| u in b.open && b.open[u] == i;
          assert u in b'.open && b'.open[u] == i;
        }
      } else {
        assert r in b'.open && b'.open[r] == i;
      }
    }
  }

  // Nothing was reported or asked.
  lemma LedgerStays(b: Book, c: Ctl, h: History, c': Ctl, h': History)
    requires Ledger(b, c, h) && c'.log == c.log && c'.counts.Keys == c.counts.Keys && c'.tree == c.tree
             && h'.rounds == h.rounds
    ensures Ledger(b, c', h')
  {
    hide BookOk, Fits;
  }

  // Request r has drawn its report.
  lemma LedgerTells(b: Book, c: Ctl, h: History, r: nat, rep: Report, c': Ctl, h': History)
    requires Ledger(b, c, h) && r in c.counts && c'.counts.Keys == c.counts.Keys - {r} && c'.log == c.log + [rep]
    requires c'.tree == c.tree || c'.counts == map[]
    requires h.rounds <= h'.rounds
    requires BookOk(b) && r in b.open && Fits(rep, b.orders[b.open[r]])
    ensures Ledger(Told(b, r), c', h')
  {
    hide BookOk, Fits;
    ToldOk(b, r);
  }

  // The only open request r has been followed by request u of the same command.
  lemma LedgerMoves(b: Book, c: Ctl, h: History, r: nat, u: nat, c': Ctl, h': History)
    requires Ledger(b, c, h) && c.counts.Keys == {r} && c'.counts.Keys == {u} && c'.log == c.log && u < Now(h')
    requires BookOk(b) && r in b.open && Asked(c'.tree, h'.rounds[u], b.orders[b.open[r]])
    ensures Ledger(Moved(b, r, u), c', h')
  {
    hide BookOk, Fits;
    MovedOk(b, r, u);
  }

  // The array has only grown, or nothing is open that could depend on it.
  predicate TreeKept(c: Ctl, c': Ctl) { c.tree <= c'.tree || c.counts == map[] }

  // A command that is answered right away.
  lemma LedgerAnswers(b: Book, c: Ctl, h: History, o: Order, rep: Report, c': Ctl, h': History)
    requires Ledger(b, c, h) && c'.counts.Keys == c.counts.Keys && c'.log == c.log + [rep] && Fits(rep, o)
    requires TreeKept(c, c') && h.rounds <= h'.rounds
    ensures Ledger(AtOnce(b, o), c', h')
  {
    hide BookOk, Fits, Asked;
    AtOnceOk(b, o);
    OrdersKept(b);
    AllStillAsked(b, c, h, c'.tree);
  }

  // A command that has become request r.
  lemma LedgerOpens(b: Book, c: Ctl, h: History, o: Order, r: nat, c': Ctl, h': History)
    requires Ledger(b, c, h) && r !in c.counts && c'.counts.Keys == c.counts.Keys + {r} && c'.log == c.log
    requires TreeKept(c, c') && h.rounds <= h'.rounds && r < Now(h') && Asked(c'.tree, h'.rounds[r], o)
    ensures Ledger(Opened(b, o, r), c', h')
  {
    hide BookOk, Fits, Asked;
    OpenedOk(b, o, r);
    OrdersKept(b);
    AllStillAsked(b, c, h, c'.tree);
  }

  // What was asked stays asked while the array grows.
  lemma AllStillAsked(b: Book, c: Ctl, h: History, t: seq<TreeNode>)
    requires BookOk(b) && AllAsked(b, c, h) && (c.tree <= t || c.counts == map[])
    ensures forall r :: r in b.open ==> b.open[r] < |b.orders| && Asked(t, h.rounds[r], b.orders[b.open[r]])
  {
    OrdersKept(b);
    hide BookOk;
    forall r | r in b.open
      ensures Asked(t, h.rounds[r], b.orders[b.open[r]])
    {
      AskedGrows(c.tree, t, h.rounds[r], b.orders[b.open[r]]);
    }
  }

  lemma AskedGrows(t: seq<TreeNode>, u: seq<TreeNode>, rd: Round, o: Order)
    requires Asked(t, rd, o) && t <= u
    ensures Asked(u, rd, o)
  {
    if o.wish.CreateNode? {
      FoundInLonger(t, u, o.wish.id);
    }
  }

  lemma {:induction false} FoundInLonger(t: seq<TreeNode>, u: seq<TreeNode>, id: int)
    requires t <= u && IndexOf(t, id) < |t|
    ensures IndexOf(u, id) == IndexOf(t, id) && Find(u, id) == Find(t, id)
  {
    if t[0].id != id {
      assert t[1..] <= u[1..];
      FoundInLonger(t[1..], u[1..], id);
    }
  }

  lemma OrdersKept(b: Book)
    requires BookOk(b)
    ensures forall j :: 0 <= j < |b.told| ==> b.told[j] < |b.orders|
    ensures forall r :: r in b.open ==> b.open[r] < |b.orders|
  {
  }

  // What an OK to request r has to be reported as.
  lemma AskedFits(b: Book, c: Ctl, h: History, r: nat)
    requires Ledger(b, c, h) && r in c.counts
    ensures BookOk(b) && r in b.open && r < Now(h)
    ensures var rd, o := h.rounds[r], b.orders[b.open[r]];
            && (rd.req.cmd == Create ==> Fits(CreateOk(Find(c.tree, rd.req.id).pid), o))
            && (rd.req.cmd == Exec ==> Fits(ExecOk(rd.req.id), o) && Fits(ExecError(rd.req.id), o))
            && (!rd.req.cmd.Create? && !rd.req.cmd.Exec? ==> Fits(RemoveOk, o) && o.wish.RemoveNode?)
  {
    hide BookOk, LogFits;
  }

  // A removal's next request carries out the same command.
  lemma StillAsked(b: Book, c: Ctl, h: History, r: nat, t: seq<TreeNode>, rd: Round)
    requires Ledger(b, c, h) && r in c.counts && r < Now(h)
    requires !h.rounds[r].req.cmd.Create? && !h.rounds[r].req.cmd.Exec? && !rd.req.cmd.Create? && !rd.req.cmd.Exec?
    ensures BookOk(b) && r in b.open && Asked(t, rd, b.orders[b.open[r]])
  {
    hide BookOk, LogFits;
  }

  // With no request open, every command has been answered.
  lemma ClosedBook(b: Book, n: nat)
    requires BookOk(b) && b.open == map[] && n == |b.orders|
    ensures |b.told| == n && forall i: nat :: i < n ==> i in b.told
  {
    forall i: nat | i < n
      ensures i in b.told
    {
      assert !Pending(b, i);
    }
    Pigeons(b.told, n);
  }

  // Distinct numbers below n that include all of them are n in number.
  lemma {:induction false} Pigeons(s: seq<nat>, n: nat)
    requires forall j :: 0 <= j < |s| ==> s[j] < n
    requires forall i, j :: 0 <= i < j < |s| ==> s[i] != s[j]
    requires forall i: nat :: i < n ==> i in s
    ensures |s| == n
    decreases n
  {
    if n > 0 {
      assert n - 1 in s;
      var k :| 0 <= k < |s| && s[k] == n - 1;
      var t := s[..k] + s[k + 1..];
      forall i: nat | i < n - 1
        ensures i in t
      {
        assert i in s;
        var j :| 0 <= j < |s| && s[j] == i;
        assert t[if j < k then j else j - 1] == i;
      }
      Pigeons(t, n - 1);
    }
  }

  // As many commands are open as there are open requests.
  lemma {:induction false} OpenOrders(b: Book)
    requires BookOk(b)
    ensures |b.orders| == |b.told| + |b.open|
    decreases |b.open|
  {
    if b.open == map[] {
      ClosedBook(b, |b.orders|);
    } else {
      var r := SomeOpen(b.open);
      ToldOk(b, r);
      OneLess(b.open, r);
      OpenOrders(Told(b, r));
    }
  }

  lemma SomeOpen(m: map<nat, nat>) returns (r: nat)
    requires m != map[]
    ensures r in m
  {
    NoKeys(m);
    r :| r in m;
  }

  lemma NoKeys(m: map<nat, nat>)
    ensures (forall u :: u !in m) ==> m == map[]
  {
  }

  lemma OneLess(m: map<nat, nat>, r: nat)
    requires r in m
    ensures |m - {r}| == |m| - 1
  {
    assert (m - {r}).Keys == m.Keys - {r};
    assert |m| == |m.Keys| && |m - {r}| == |(m - {r}).Keys|;
  }
}
