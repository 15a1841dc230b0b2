// The controller's failure detector (heartbeat_worker, receive_pong_from_socket): one counter per
// registered node, raised every round, cleared by a pong, reported when it reads exactly four.
module Heartbeat {

  const LIMIT := 4

  function Ticked(m: map<int, int>): map<int, int> { map x | x in m :: m[x] + 1 }

  function Answered(m: map<int, int>, pongs: seq<int>): map<int, int> {
    map x | x in m :: if x in pongs then 0 else m[x]
  }

  function AfterRound(m: map<int, int>, pongs: seq<int>): map<int, int> { Answered(Ticked(m), pongs) }

  // The order in which the hash map is gone through: every key once.
  predicate GoesThrough(order: seq<int>, m: map<int, int>) {
    && (forall i :: 0 <= i < |order| ==> order[i] in m)
    && (forall x :: x in m ==> x in order)
    && (forall i, j :: 0 <= i < j < |order| ==> order[i] != order[j])
  }

  function Overdue(m: map<int, int>, order: seq<int>): (r: seq<int>)
    ensures forall x :: x in r <==> x in order && x in m && m[x] == LIMIT
  {
    if order == [] then []
    else
      var last := order[|order| - 1];
      Overdue(m, order[..|order| - 1]) + (if last in m && m[last] == LIMIT then [last] else [])
  }

  class Detector {
    var pings: map<int, int>

    constructor ()
      ensures pings == map[]
    {
      pings := map[];
    }

    method Register(id: int)
      modifies this
      ensures pings == old(pings)[id := 0]
    {
      pings := pings[id := 0];
    }

    method Forget(id: int)
      modifies this
      ensures pings == old(pings) - {id}
    {
      if id in pings {
        pings := pings - {id};
      }
    }

    method Tick(order: seq<int>)
      requires GoesThrough(order, pings)
      modifies this
      ensures pings == Ticked(old(pings))
    {
      var i := 0;
      while i < |order|
        invariant 0 <= i <= |order|
        invariant pings.Keys == old(pings).Keys
        invariant forall j :: 0 <= j < |order| ==> order[j] in pings && order[j] in old(pings)
        invariant forall j :: 0 <= j < i ==> pings[order[j]] == old(pings)[order[j]] + 1
        invariant forall j :: i <= j < |order| ==> pings[order[j]] == old(pings)[order[j]]
      {
        pings := pings[order[i] := pings[order[i]] + 1];
        i := i + 1;
      }
      forall x | x in old(pings)
        ensures pings[x] == old(pings)[x] + 1
      {
        assert x in order;
      }
    }

    method TakePongs(pongs: seq<int>)
      modifies this
      ensures pings == Answered(old(pings), pongs)
    {
      var i := 0;
      while i < |pongs|
        invariant 0 <= i <= |pongs|
        invariant pings == Answered(old(pings), pongs[..i])
      {
        assert pongs[..i + 1] == pongs[..i] + [pongs[i]];
        if pongs[i] in pings {
          pings := pings[pongs[i] := 0];
        }
        i := i + 1;
      }
      assert pongs[..i] == pongs;
    }

    method Report(order: seq<int>) returns (late: seq<int>)
      ensures late == Overdue(pings, order)
    {
      late := [];
      var i := 0;
      while i < |order|
        invariant 0 <= i <= |order|
        invariant late == Overdue(pings, order[..i])
      {
        assert order[..i + 1][..i] == order[..i];
        if order[i] in pings && pings[order[i]] == LIMIT {
          late := late + [order[i]];
        }
        i := i + 1;
      }
      assert order[..i] == order;
    }

    // One turn of the worker's loop; `pongs` is everything that arrived while it waited.
    method Round(order: seq<int>, pongs: seq<int>) returns (late: seq<int>)
      requires GoesThrough(order, pings)
      modifies this
      ensures pings == AfterRound(old(pings), pongs)
      ensures forall x :: x in late <==> x in pings && pings[x] == 4
    {
      Tick(order);
      TakePongs(pongs);
      late := Report(order);
    }
  }

  // ---- Whole histories ----

  datatype Event = Registered(id: int) | Dropped(id: int) | Beat(pongs: seq<int>)

  function Book(es: seq<Event>): map<int, int> {
    if es == [] then map[]
    else
      var m := Book(es[..|es| - 1]);
      match es[|es| - 1]
      case Registered(id) => m[id := 0]
      case Dropped(id) => m - {id}
      case Beat(pongs) => AfterRound(m, pongs)
  }

  // What the round that ends the history prints about id.
  predicate Reports(es: seq<Event>, id: int) {
    && es != [] && es[|es| - 1].Beat?
    && id in Book(es) && Book(es)[id] == LIMIT
  }

  predicate IsMember(es: seq<Event>, id: int) {
    es != [] &&
    match es[|es| - 1]
    case Registered(x) => x == id || IsMember(es[..|es| - 1], id)
    case Dropped(x) => x != id && IsMember(es[..|es| - 1], id)
    case Beat(_) => IsMember(es[..|es| - 1], id)
  }

  // The event ends a silence of id: a pong from it, or its (re)registration.
  predicate Breaks(e: Event, id: int) {
    match e
    case Registered(x) => x == id
    case Dropped(_) => false
    case Beat(pongs) => id in pongs
  }

  function IsRound(e: Event): nat { if e.Beat? then 1 else 0 }

  // The rounds since id was last heard of.
  function Silence(es: seq<Event>, id: int): nat {
    if es == [] || Breaks(es[|es| - 1], id) then 0
    else Silence(es[..|es| - 1], id) + IsRound(es[|es| - 1])
  }

  // The counters hold exactly the silences of the registered nodes.
  lemma {:induction false} CountersAreSilences(es: seq<Event>, id: int)
    ensures id in Book(es) <==> IsMember(es, id)
    ensures id in Book(es) ==> Book(es)[id] == Silence(es, id)
  {
    if es != [] {
      CountersAreSilences(es[..|es| - 1], id);
    }
  }

  // A node is reported in a round iff it is registered and that round is its fourth silent one.
  lemma {:induction false} ReportedAtFour(es: seq<Event>, pongs: seq<int>, id: int)
    ensures Reports(es + [Beat(pongs)], id) <==> IsMember(es, id) && id !in pongs && Silence(es, id) == 3
  {
    var all := es + [Beat(pongs)];
    assert all[..|all| - 1] == es;
    CountersAreSilences(es, id);
    CountersAreSilences(all, id);
  }

  lemma {:induction false} SilenceGrows(es: seq<Event>, more: seq<Event>, id: int)
    requires forall e :: e in more ==> !Breaks(e, id)
    ensures Silence(es + more, id) >= Silence(es, id)
    ensures more != [] && more[|more| - 1].Beat? ==> Silence(es + more, id) > Silence(es, id)
  {
    if more == [] {
      assert es + more == es;
    } else {
      var all, less := es + more, more[..|more| - 1];
      SilenceGrows(es, less, id);
      assert all[..|all| - 1] == es + less;
      assert all[|all| - 1] == more[|more| - 1] && more[|more| - 1] in more;
    }
  }

  // Once per outage: between two reports of a node it was heard of in between.
  lemma OncePerOutage(es: seq<Event>, more: seq<Event>, id: int)
    requires more != [] && Reports(es, id) && Reports(es + more, id)
    ensures exists e :: e in more && Breaks(e, id)
  {
    if forall e :: e in more ==> !Breaks(e, id) {
      var all := es + more;
      assert all[|all| - 1] == more[|more| - 1];
      SilenceGrows(es, more, id);
      CountersAreSilences(es, id);
      CountersAreSilences(all, id);
    }
  }

  // An outage that lasts is reported: four silent rounds in a row report a registered node once.
  lemma {:induction false} OutageIsReported(es: seq<Event>, rounds: seq<seq<int>>, id: int)
    requires IsMember(es, id) && Silence(es, id) == 0 && |rounds| == 4
    requires forall r :: r in rounds ==> id !in r
    ensures var bs := [Beat(rounds[0]), Beat(rounds[1]), Beat(rounds[2]), Beat(rounds[3])];
            forall k :: 0 < k <= 4 ==> (Reports(es + bs[..k], id) <==> k == 4)
  {
    var bs := [Beat(rounds[0]), Beat(rounds[1]), Beat(rounds[2]), Beat(rounds[3])];
    forall k | 0 < k <= 4
      ensures Reports(es + bs[..k], id) <==> k == 4
    {
      SilentRun(es, bs, k, id);
      CountersAreSilences(es + bs[..k], id);
      assert (es + bs[..k])[|es| + k - 1].Beat?;
    }
  }

  lemma {:induction false} SilentRun(es: seq<Event>, bs: seq<Event>, k: nat, id: int)
    requires k <= |bs| && forall j :: 0 <= j < |bs| ==> bs[j].Beat? && !Breaks(bs[j], id)
    ensures Silence(es + bs[..k], id) == Silence(es, id) + k
    ensures IsMember(es + bs[..k], id) == IsMember(es, id)
  {
    var all := es + bs[..k];
    if k == 0 {
      assert all == es;
    } else {
      SilentRun(es, bs, k - 1, id);
      assert all[..|all| - 1] == es + bs[..k - 1];
    }
  }
}
