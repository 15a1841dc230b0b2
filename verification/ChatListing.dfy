// What the list of chats contains, in which order, and what its reader makes of it.
module ChatListing {
  import opened StringParser
  import opened Decimal
  import opened ChatState
  import opened ChatList
  import opened ChatServer
  import opened ChatInvariants
  import opened ChatWire
  import R = ChatRequests

  const INT_LIMIT := 0x8000_0000

  // ---- The order of keys is the order of ids turned around, up to 2^31 ----

  lemma KeyIsMinus(id: nat)
    requires 0 < id <= INT_LIMIT
    ensures Key(id) + id == 0
  {
    assert id % WORD == id;
    assert (WORD - id) == 0xFFFF_FFFF * 0x1_0000_0000 + (0x1_0000_0000 - id);
    assert (WORD - id) % 0x1_0000_0000 == 0x1_0000_0000 - id;
  }

  lemma KeyWraps()
    ensures Key(INT_LIMIT + 1) == INT_LIMIT - 1 && Key(1) == -1
  {
    KeyIsMinus(1);
    assert WORD - (INT_LIMIT + 1) == 0xFFFF_FFFF * 0x1_0000_0000 + 0x7FFF_FFFF;
    assert (INT_LIMIT + 1) % WORD == INT_LIMIT + 1;
  }

  predicate NewerSortsFirst(a: nat, b: nat) { 0 < a < b ==> Key(b) < Key(a) }

  // The sort puts newer chats first for all ids handed out so far exactly as long as those fit in
  // an int; message 1 and message 2^31 + 1 already come the wrong way round.
  lemma KeyOrderExactly(n: nat)
    ensures (forall a: nat, b: nat :: a <= n && b <= n ==> NewerSortsFirst(a, b)) <==> n <= INT_LIMIT
  {
    hide Key;
    if n <= INT_LIMIT {
      forall a: nat, b: nat | a <= n && b <= n
        ensures NewerSortsFirst(a, b)
      {
        if 0 < a < b {
          KeyIsMinus(a);
          KeyIsMinus(b);
        }
      }
    } else {
      KeyWraps();
      assert !NewerSortsFirst(1, INT_LIMIT + 1);
    }
  }

  // ---- The sort ----

  lemma {:induction false} NotSmallerChains(a: string, b: string, c: string)
    requires !Smaller(b, a) && !Smaller(c, b)
    ensures !Smaller(c, a)
    decreases |a|
  {
    if a != [] && b != [] && c != [] && a[0] == b[0] == c[0] {
      NotSmallerChains(a[1..], b[1..], c[1..]);
    }
  }

  lemma NotBeforeChains(a: Line, b: Line, c: Line)
    requires !Before(b, a) && !Before(c, b)
    ensures !Before(c, a)
  {
    hide Smaller;
    if a.key == b.key == c.key {
      NotSmallerChains(a.text, b.text, c.text);
    }
  }

  // Texts under the same key are compared at the first place where they differ, or by where one ends.
  ghost predicate DifferAt(a: string, b: string, k: nat) {
    k <= |a| && k <= |b| && a[..k] == b[..k] && k < |b| && (k == |a| || a[k] < b[k])
  }

  lemma {:induction false} SmallerByFirstDifference(a: string, b: string)
    ensures Smaller(a, b) <==> exists k: nat :: DifferAt(a, b, k)
    decreases |a|
  {
    if a != [] && b != [] && a[0] == b[0] {
      SmallerByFirstDifference(a[1..], b[1..]);
      if Smaller(a, b) {
        var k: nat :| DifferAt(a[1..], b[1..], k);
        assert a[..k + 1] == [a[0]] + a[1..][..k] && b[..k + 1] == [b[0]] + b[1..][..k];
        assert DifferAt(a, b, k + 1);
      }
      if k: nat :| DifferAt(a, b, k) {
        assert a[..k][1..] == a[1..][..k - 1] && b[..k][1..] == b[1..][..k - 1];
        assert DifferAt(a[1..], b[1..], k - 1);
      }
    } else {
      forall k: nat | DifferAt(a, b, k)
        ensures k == 0
      {
        if k > 0 {
          DifferLater(a, b, k);
        }
      }
      assert Smaller(a, b) ==> DifferAt(a, b, 0);
    }
  }

  lemma DifferLater(a: string, b: string, k: nat)
    requires DifferAt(a, b, k) && k > 0
    ensures a != [] && b != [] && a[0] == b[0]
  {
    assert a[..k][0] == b[..k][0];
  }

  ghost predicate Ordered(ls: seq<Line>) { forall i, j :: 0 <= i < j < |ls| ==> !Before(ls[j], ls[i]) }

  lemma {:induction false} SmallerIsStrict(a: string, b: string)
    requires Smaller(a, b)
    ensures !Smaller(b, a)
    decreases |a|
  {
    if a != [] && a[0] == b[0] {
      SmallerIsStrict(a[1..], b[1..]);
    }
  }

  lemma BeforeIsStrict(a: Line, b: Line)
    requires Before(a, b)
    ensures !Before(b, a)
  {
    hide Smaller;
    if a.key == b.key {
      SmallerIsStrict(a.text, b.text);
    }
  }

  lemma {:induction false} InsertKeepsOrder(a: Line, ls: seq<Line>)
    requires Ordered(ls)
    ensures Ordered(Insert(a, ls)) && multiset(Insert(a, ls)) == multiset(ls) + multiset{a}
  {
    hide Before;
    if ls == [] {
    } else if !Before(ls[0], a) {
      BeforeIsTotal(a);
      forall j | 0 <= j < |ls|
        ensures !Before(ls[j], a)
      {
        if j > 0 {
          NotBeforeChains(a, ls[0], ls[j]);
        }
      }
    } else {
      InsertKeepsOrder(a, ls[1..]);
      BeforeIsStrict(ls[0], a);
      assert forall j :: 0 <= j < |ls| - 1 ==> !Before(ls[1..][j], ls[0]);
      InsertStaysBehind(ls[0], a, ls[1..]);
      assert ls == [ls[0]] + ls[1..];
    }
  }

  lemma {:induction false} InsertStaysBehind(x: Line, a: Line, ls: seq<Line>)
    requires !Before(a, x) && forall j :: 0 <= j < |ls| ==> !Before(ls[j], x)
    ensures forall j :: 0 <= j < |Insert(a, ls)| ==> !Before(Insert(a, ls)[j], x)
  {
    hide Before;
    if ls != [] && Before(ls[0], a) {
      InsertStaysBehind(x, a, ls[1..]);
    }
  }

  lemma BeforeIsTotal(a: Line)
    ensures !Before(a, a)
  {
    if Before(a, a) {
      BeforeIsStrict(a, a);
    }
  }

  // The lines come out in the order of their keys, all of them.
  lemma {:induction false} SortSorts(ls: seq<Line>)
    ensures Ordered(Sort(ls)) && multiset(Sort(ls)) == multiset(ls)
  {
    if ls != [] {
      SortSorts(ls[1..]);
      InsertKeepsOrder(ls[0], Sort(ls[1..]));
      assert ls == [ls[0]] + ls[1..];
    }
  }

  // ---- The chats shown to a user ----

  // Whom user u talks to in private chat c.
  function PartnerIn(c: Private, u: nat): nat { if c.user1 == u then c.user2 else c.user1 }

  function NameAt(s: State, u: nat, p: Place): string {
    match p
    case InPrivate(i) =>
      if i < |s.privates| && Involves(s.privates[i], u) then LoginOf(s.users, PartnerIn(s.privates[i], u)) else ""
    case InGroup(i) => if i < |s.groups| then s.groups[i].name else ""
    case _ => ""
  }

  function KindAt(p: Place): string { if p.InGroup? then GROUP else PRIVATE }

  // The user's own chats with something in them.
  predicate Shows(s: State, u: nat, p: Place) {
    && Log(s, p) != []
    && match p
       case InPrivate(i) => i < |s.privates| && Involves(s.privates[i], u) && NameAt(s, u, p) != ""
       case InGroup(i) => i < |s.groups| && u in s.groups[i].users
       case _ => false
  }

  function LastAt(s: State, p: Place): Message {
    var log := Log(s, p);
    if log == [] then Message("", "", 0) else log[|log| - 1]
  }

  function LineAt(s: State, u: nat, p: Place): Line {
    var m := LastAt(s, p);
    Line(Key(m.id), LineText(KindAt(p), NameAt(s, u, p), m))
  }

  function LinesAt(s: State, u: nat, ps: seq<Place>): (ls: seq<Line>)
    ensures |ls| == |ps| && forall i :: 0 <= i < |ps| ==> ls[i] == LineAt(s, u, ps[i])
  {
    if ps == [] then [] else [LineAt(s, u, ps[0])] + LinesAt(s, u, ps[1..])
  }

  function PrivatePlaces(s: State, u: nat, n: nat): seq<Place> {
    if n == 0 then []
    else PrivatePlaces(s, u, n - 1) + (if Shows(s, u, InPrivate(n - 1)) then [InPrivate(n - 1)] else [])
  }

  function GroupPlaces(s: State, u: nat, n: nat): seq<Place> {
    if n == 0 then []
    else GroupPlaces(s, u, n - 1) + (if Shows(s, u, InGroup(n - 1)) then [InGroup(n - 1)] else [])
  }

  function Places(s: State, u: nat): seq<Place> {
    PrivatePlaces(s, u, |s.privates|) + GroupPlaces(s, u, |s.groups|)
  }

  lemma {:induction false} LinesAppend(s: State, u: nat, a: seq<Place>, b: seq<Place>)
    ensures LinesAt(s, u, a + b) == LinesAt(s, u, a) + LinesAt(s, u, b)
  {
    hide LinesAt, LineAt;
  }

  // One chat's line, if it is shown.
  lemma {:induction false} PrivateLine(s: State, u: nat, i: nat)
    requires i < |s.privates|
    ensures var c := s.privates[i];
            var other := OtherName(s.users, c, u);
            (if other != "" && c.messages != [] then [LineFor(PRIVATE, other, c.messages)] else [])
            == LinesAt(s, u, if Shows(s, u, InPrivate(i)) then [InPrivate(i)] else [])
  {
    hide Key, LinesAt;
  }

  lemma {:induction false} PrivateLinesAt(s: State, u: nat, n: nat)
    requires n <= |s.privates|
    ensures PrivateLines(s.users, s.privates[..n], u) == LinesAt(s, u, PrivatePlaces(s, u, n))
  {
    hide LinesAt, LineFor, Shows, OtherName;
    if n > 0 {
      PrivateLinesAt(s, u, n - 1);
      assert s.privates[..n][..n - 1] == s.privates[..n - 1];
      PrivateLine(s, u, n - 1);
      LinesAppend(s, u, PrivatePlaces(s, u, n - 1), if Shows(s, u, InPrivate(n - 1)) then [InPrivate(n - 1)] else []);
    } else {
      assert PrivateLines(s.users, [], u) == [];
    }
  }

  lemma {:induction false} GroupLine(s: State, u: nat, i: nat)
    requires i < |s.groups|
    ensures var g := s.groups[i];
            (if u in g.users && g.messages != [] then [LineFor(GROUP, g.name, g.messages)] else [])
            == LinesAt(s, u, if Shows(s, u, InGroup(i)) then [InGroup(i)] else [])
  {
    hide Key, LinesAt;
  }

  lemma {:induction false} GroupLinesStep(gs: seq<Group>, u: nat)
    requires gs != []
    ensures var g := gs[|gs| - 1];
            GroupLines(gs, u)
            == GroupLines(gs[..|gs| - 1], u)
               + (if u in g.users && g.messages != [] then [LineFor(GROUP, g.name, g.messages)] else [])
  {
    hide LineFor;
  }

  lemma GroupPlacesStep(s: State, u: nat, n: nat)
    requires n > 0
    ensures GroupPlaces(s, u, n)
            == GroupPlaces(s, u, n - 1) + (if Shows(s, u, InGroup(n - 1)) then [InGroup(n - 1)] else [])
  {
    hide Shows;
  }

  lemma {:induction false} GroupLinesAt(s: State, u: nat, n: nat)
    requires n <= |s.groups|
    ensures GroupLines(s.groups[..n], u) == LinesAt(s, u, GroupPlaces(s, u, n))
  {
    hide LinesAt, LineFor, Shows, LineAt;
    if n > 0 {
      GroupLinesAt(s, u, n - 1);
      assert s.groups[..n][..n - 1] == s.groups[..n - 1] && s.groups[..n][n - 1] == s.groups[n - 1];
      GroupLine(s, u, n - 1);
      hide *;
      GroupLinesStep(s.groups[..n], u);
      GroupPlacesStep(s, u, n);
      LinesAppend(s, u, GroupPlaces(s, u, n - 1), if Shows(s, u, InGroup(n - 1)) then [InGroup(n - 1)] else []);
    } else {
      assert GroupLines([], u) == [];
    }
  }

  lemma {:induction false} LinesArePlaces(s: State, u: nat)
    ensures Lines(s, u) == LinesAt(s, u, Places(s, u))
  {
    hide LinesAt, PrivateLines, GroupLines, PrivatePlaces, GroupPlaces;
    PrivateLinesAt(s, u, |s.privates|);
    GroupLinesAt(s, u, |s.groups|);
    LinesAppend(s, u, PrivatePlaces(s, u, |s.privates|), GroupPlaces(s, u, |s.groups|));
    assert s.privates[..|s.privates|] == s.privates && s.groups[..|s.groups|] == s.groups;
  }

  lemma {:induction false} PrivatePlacesAre(s: State, u: nat, n: nat)
    ensures forall p :: p in PrivatePlaces(s, u, n) <==> p.InPrivate? && p.i < n && Shows(s, u, p)
    ensures forall i, j :: 0 <= i < j < |PrivatePlaces(s, u, n)| ==>
              PrivatePlaces(s, u, n)[i] != PrivatePlaces(s, u, n)[j]
  {
    hide Shows;
    if n > 0 {
      PrivatePlacesAre(s, u, n - 1);
    }
  }

  lemma {:induction false} GroupPlacesAre(s: State, u: nat, n: nat)
    ensures forall p :: p in GroupPlaces(s, u, n) <==> p.InGroup? && p.i < n && Shows(s, u, p)
    ensures forall i, j :: 0 <= i < j < |GroupPlaces(s, u, n)| ==> GroupPlaces(s, u, n)[i] != GroupPlaces(s, u, n)[j]
  {
    hide Shows;
    if n > 0 {
      GroupPlacesAre(s, u, n - 1);
    }
  }

  ghost predicate NoRepeats(ps: seq<Place>) { forall i, j :: 0 <= i < j < |ps| ==> ps[i] != ps[j] }

  lemma PlacesAre(s: State, u: nat)
    ensures forall p :: p in Places(s, u) <==> Shows(s, u, p)
    ensures NoRepeats(Places(s, u))
  {
    PrivatePlacesAre(s, u, |s.privates|);
    GroupPlacesAre(s, u, |s.groups|);
    var a, b := PrivatePlaces(s, u, |s.privates|), GroupPlaces(s, u, |s.groups|);
    assert forall i, j :: 0 <= i < |a| && 0 <= j < |b| ==> a[i] in a && b[j] in b;
  }

  // ---- Sorting ----

  function InsertAt(s: State, u: nat, p: Place, ps: seq<Place>): seq<Place> {
    if ps == [] || !Before(LineAt(s, u, ps[0]), LineAt(s, u, p)) then [p] + ps
    else [ps[0]] + InsertAt(s, u, p, ps[1..])
  }

  function SortPlaces(s: State, u: nat, ps: seq<Place>): seq<Place> {
    if ps == [] then [] else InsertAt(s, u, ps[0], SortPlaces(s, u, ps[1..]))
  }

  lemma {:induction false} InsertCommutes(s: State, u: nat, p: Place, ps: seq<Place>)
    ensures LinesAt(s, u, InsertAt(s, u, p, ps)) == Insert(LineAt(s, u, p), LinesAt(s, u, ps))
  {
    hide LineAt, Before;
    if ps != [] {
      assert LinesAt(s, u, ps)[1..] == LinesAt(s, u, ps[1..]);
      InsertCommutes(s, u, p, ps[1..]);
    }
  }

  lemma {:induction false} SortCommutes(s: State, u: nat, ps: seq<Place>)
    ensures LinesAt(s, u, SortPlaces(s, u, ps)) == Sort(LinesAt(s, u, ps))
  {
    hide LineAt, Before, Insert, InsertAt;
    if ps != [] {
      assert LinesAt(s, u, ps)[1..] == LinesAt(s, u, ps[1..]);
      SortCommutes(s, u, ps[1..]);
      InsertCommutes(s, u, ps[0], SortPlaces(s, u, ps[1..]));
    }
  }

  ghost predicate NewestFirst(s: State, ps: seq<Place>) {
    forall i, j :: 0 <= i < j < |ps| ==> LastAt(s, ps[i]).id > LastAt(s, ps[j]).id
  }

  // p's last message is one of its own, and the int key can tell it from the others.
  ghost predicate Comparable(s: State, p: Place, ps: seq<Place>) {
    && 0 < LastAt(s, p).id <= INT_LIMIT
    && forall i :: 0 <= i < |ps| ==> 0 < LastAt(s, ps[i]).id <= INT_LIMIT && LastAt(s, ps[i]).id != LastAt(s, p).id
  }

  lemma {:induction false} InsertContents(s: State, u: nat, p: Place, ps: seq<Place>)
    ensures forall q :: q in InsertAt(s, u, p, ps) <==> q == p || q in ps
  {
    hide LineAt, Before;
    if ps != [] {
      InsertContents(s, u, p, ps[1..]);
      assert forall q :: q in ps <==> q == ps[0] || q in ps[1..];
    }
  }

  lemma BeforeIsNewer(s: State, u: nat, p: Place, q: Place)
    requires 0 < LastAt(s, p).id <= INT_LIMIT && 0 < LastAt(s, q).id <= INT_LIMIT
    requires LastAt(s, p).id != LastAt(s, q).id
    ensures Before(LineAt(s, u, p), LineAt(s, u, q)) <==> LastAt(s, p).id > LastAt(s, q).id
  {
    hide Smaller, Key, LastAt, LineText;
    KeyIsMinus(LastAt(s, p).id);
    KeyIsMinus(LastAt(s, q).id);
  }

  lemma {:induction false} InsertOrders(s: State, u: nat, p: Place, ps: seq<Place>)
    requires NewestFirst(s, ps) && Comparable(s, p, ps)
    ensures NewestFirst(s, InsertAt(s, u, p, ps))
  {
    hide LineAt, Before, LastAt;
    if ps != [] {
      BeforeIsNewer(s, u, ps[0], p);
      InsertOrders(s, u, p, ps[1..]);
      InsertContents(s, u, p, ps[1..]);
      var r := InsertAt(s, u, p, ps[1..]);
      forall j | 0 <= j < |r| && LastAt(s, ps[0]).id > LastAt(s, p).id
        ensures LastAt(s, ps[0]).id > LastAt(s, r[j]).id
      {
        assert r[j] in r;
        assert r[j] == p || r[j] in ps[1..];
      }
    }
  }

  ghost predicate AllComparable(s: State, ps: seq<Place>) {
    && (forall i :: 0 <= i < |ps| ==> 0 < LastAt(s, ps[i]).id <= INT_LIMIT)
    && (forall i, j :: 0 <= i < j < |ps| ==> LastAt(s, ps[i]).id != LastAt(s, ps[j]).id)
  }

  lemma {:induction false} SortOrders(s: State, u: nat, ps: seq<Place>)
    requires AllComparable(s, ps)
    ensures NewestFirst(s, SortPlaces(s, u, ps))
    ensures forall q :: q in SortPlaces(s, u, ps) <==> q in ps
  {
    hide LastAt, InsertAt;
    if ps != [] {
      var rest := ps[1..];
      SortOrders(s, u, rest);
      var sorted := SortPlaces(s, u, rest);
      forall i | 0 <= i < |sorted|
        ensures 0 < LastAt(s, sorted[i]).id <= INT_LIMIT && LastAt(s, sorted[i]).id != LastAt(s, ps[0]).id
      {
        assert sorted[i] in sorted && sorted[i] in rest;
      }
      InsertOrders(s, u, ps[0], sorted);
      InsertContents(s, u, ps[0], sorted);
      assert forall q :: q in ps <==> q == ps[0] || q in rest;
    }
  }

  lemma ShownComparable(s: State, u: nat)
    requires Inv(s) && s.counter <= INT_LIMIT
    ensures AllComparable(s, Places(s, u))
  {
    hide UsersOk, PairsOk, GroupsOk, Log, Places;
    var ps := Places(s, u);
    PlacesAre(s, u);
    forall i | 0 <= i < |ps|
      ensures Log(s, ps[i]) != [] && 0 < LastAt(s, ps[i]).id <= INT_LIMIT
    {
      assert ps[i] in ps;
      assert Rising(Log(s, ps[i]), s.counter);
    }
    forall i, j | 0 <= i < j < |ps|
      ensures LastAt(s, ps[i]).id != LastAt(s, ps[j]).id
    {
      assert Disjoint(Log(s, ps[i]), Log(s, ps[j]));
    }
  }

  // ---- The text, there and back ----

  datatype Row = Row(kind: string, name: string, from: string, text: string)

  function RowAt(s: State, u: nat, p: Place): Row {
    Row(KindAt(p), NameAt(s, u, p), LastAt(s, p).from, LastAt(s, p).text)
  }

  function FieldsOfRows(s: State, u: nat, ps: seq<Place>): (fs: seq<string>)
    ensures |fs| == 4 * |ps|
  {
    if ps == [] then []
    else
      var r := RowAt(s, u, ps[|ps| - 1]);
      FieldsOfRows(s, u, ps[..|ps| - 1]) + [r.kind, r.name, r.from, r.text]
  }

  // How the list of chats takes the fields: four to a row.
  function RowsOf(fs: seq<string>): seq<Row> {
    if |fs| < 4 then [] else RowsOf(fs[..|fs| - 4]) + [Row(fs[|fs| - 4], fs[|fs| - 3], fs[|fs| - 2], fs[|fs| - 1])]
  }

  predicate CleanRow(r: Row) { Free(r.kind, SEP) && Free(r.name, SEP) && Free(r.from, SEP) && Free(r.text, SEP) }

  lemma {:induction false} RowsComeBack(s: State, u: nat, ps: seq<Place>)
    ensures |RowsOf(FieldsOfRows(s, u, ps))| == |ps|
    ensures forall i :: 0 <= i < |ps| ==> RowsOf(FieldsOfRows(s, u, ps))[i] == RowAt(s, u, ps[i])
  {
    hide RowAt;
    if ps != [] {
      var less, r := ps[..|ps| - 1], RowAt(s, u, ps[|ps| - 1]);
      RowsComeBack(s, u, less);
      var fs := FieldsOfRows(s, u, ps);
      assert fs[..|fs| - 4] == FieldsOfRows(s, u, less);
    }
  }

  lemma JoinFour(a: string, b: string, c: string, d: string)
    ensures Join([a, b, c, d], SEP) + [SEP] == a + [SEP] + b + [SEP] + c + [SEP] + d + [SEP]
  {
    JoinThree(b, c, d);
    assert [a, b, c, d][1..] == [b, c, d];
  }

  lemma {:induction false} TextsAreJoined(s: State, u: nat, ps: seq<Place>)
    requires ps != []
    ensures Texts(LinesAt(s, u, ps)) == Join(FieldsOfRows(s, u, ps), SEP) + [SEP]
  {
    hide Join, LinesAt, NameAt, LastAt, KindAt;
    var less, p := ps[..|ps| - 1], ps[|ps| - 1];
    var r := RowAt(s, u, p);
    var ls := LinesAt(s, u, ps);
    assert ls[..|ls| - 1] == LinesAt(s, u, less);
    JoinFour(r.kind, r.name, r.from, r.text);
    assert LineAt(s, u, p).text == Join([r.kind, r.name, r.from, r.text], SEP) + [SEP];
    if less == [] {
      assert LinesAt(s, u, less) == [];
      assert FieldsOfRows(s, u, ps) == [r.kind, r.name, r.from, r.text];
      assert Texts(ls) == LineAt(s, u, p).text;
    } else {
      TextsAreJoined(s, u, less);
      JoinMore(FieldsOfRows(s, u, less), [r.kind, r.name, r.from, r.text], SEP);
    }
  }

  lemma {:induction false} RowsAreFree(s: State, u: nat, ps: seq<Place>)
    requires forall i :: 0 <= i < |ps| ==> CleanRow(RowAt(s, u, ps[i]))
    ensures forall j :: 0 <= j < |FieldsOfRows(s, u, ps)| ==> Free(FieldsOfRows(s, u, ps)[j], SEP)
  {
    hide Free, RowAt;
    if ps != [] {
      var p := ps[|ps| - 1];
      RowsAreFree(s, u, ps[..|ps| - 1]);
      assert CleanRow(RowAt(s, u, p));
    }
  }

  lemma StripsSeparator(a: string)
    ensures Strip(a + [SEP]) == a && Strip("") == ""
  {
  }

  lemma {:induction false} NoRowsNoText(s: State, u: nat)
    ensures Strip(Texts(LinesAt(s, u, []))) == ""
  {
    assert LinesAt(s, u, []) == [];
  }

  // The chats command answers with exactly the user's non-empty chats, each once, the one written
  // to last first, as long as no more than 2^31 messages were ever sent; and its reader gets back
  // the four fields of every one of them if there is no separator in them.
  lemma ChatsListedInOrder(s: State, pipe: string, u: nat) returns (ps: seq<Place>)
    requires Inv(s) && s.counter <= INT_LIMIT
    ensures forall p :: p in ps <==> Shows(s, u, p)
    ensures NewestFirst(s, ps)
    ensures ps == [] ==> Chats(s, pipe, u) == Done(s, [Letter(pipe, CHATS + [SEP] + OK)])
    ensures ps != [] ==>
              var text := Join(FieldsOfRows(s, u, ps), SEP);
              && Chats(s, pipe, u) == Answer(s, pipe, CHATS, OK, text)
              && ((forall i :: 0 <= i < |ps| ==> CleanRow(RowAt(s, u, ps[i]))) ==>
                    && |RowsOf(Fields(text, SEP))| == |ps|
                    && forall i :: 0 <= i < |ps| ==> RowsOf(Fields(text, SEP))[i] == RowAt(s, u, ps[i]))
  {
    hide Inv, Shows, Places, SortPlaces, Sort, Lines, Texts, Join, Fields, RowsOf, RowAt, LinesAt, NewestFirst, Strip;
    ps := SortPlaces(s, u, Places(s, u));
    PlacesAre(s, u);
    ShownComparable(s, u);
    SortOrders(s, u, Places(s, u));
    LinesArePlaces(s, u);
    SortCommutes(s, u, Places(s, u));
    if ps == [] {
      NoRowsNoText(s, u);
      assert Response(CHATS, OK, "") == CHATS + [SEP] + OK;
    } else {
      var fs := FieldsOfRows(s, u, ps);
      TextsAreJoined(s, u, ps);
      StripsSeparator(Join(fs, SEP));
      if forall i :: 0 <= i < |ps| ==> CleanRow(RowAt(s, u, ps[i])) {
        RowsAreFree(s, u, ps);
        FieldsOfJoin(fs, SEP);
        RowsComeBack(s, u, ps);
      }
    }
  }

  // A row of the list leads back to its chat: under the kind and the name in it, that chat is read.
  lemma {:induction false} RowLeadsBack(s: State, u: nat, p: Place)
    requires Inv(s) && u < |s.users| && Shows(s, u, p)
    ensures ReadPlace(s, u, KindAt(p), NameAt(s, u, p)) == p
    ensures p.InPrivate? ==> exists v: nat :: v < |s.users| && v != u && R.ChatOfTwo(s, p.i, u, v)
                                          && NameAt(s, u, p) == s.users[v].login
  {
    hide LogsOk, FindNamed, FindGroup;
    WordsDiffer();
    if p.InPrivate? {
      var v := PartnerIn(s.privates[p.i], u);
      assert R.ChatOfTwo(s, p.i, u, v);
      R.ChatOfTwoIs(s, p.i, u, v);
    } else {
      assert R.FirstGroup(s, s.groups[p.i].name, p.i);
      R.GroupIs(s, s.groups[p.i].name, p.i);
    }
  }

  // One row of the answer, and the chat it stands for.
  ghost predicate Describes(s: State, u: nat, r: Row, p: Place) {
    && ReadPlace(s, u, r.kind, r.name) == p
    && (var log := Log(s, p); log != [] && r.from == log[|log| - 1].from && r.text == log[|log| - 1].text)
    && match p
       case InPrivate(i) =>
         r.kind == "PRIVATE"
         && exists v: nat :: v < |s.users| && v != u && R.ChatOfTwo(s, i, u, v) && r.name == s.users[v].login
       case InGroup(i) => r.kind == "GROUP" && i < |s.groups| && u in s.groups[i].users && r.name == s.groups[i].name
       case _ => false
  }

  lemma RowDescribes(s: State, u: nat, p: Place)
    requires Inv(s) && u < |s.users| && Shows(s, u, p)
    ensures Describes(s, u, RowAt(s, u, p), p)
  {
    hide Inv, ReadPlace, NameAt;
    RowLeadsBack(s, u, p);
    R.Words();
    if p.InGroup? {
      GroupNameAt(s, u, p.i);
    }
  }

  lemma GroupNameAt(s: State, u: nat, i: nat)
    requires i < |s.groups|
    ensures NameAt(s, u, InGroup(i)) == s.groups[i].name
  {
  }

  // From the request line to the rows the client shows: as long as there is no separator in them, they
  // are the user's chats, each row naming the other user or the group and ending in the last message.
  lemma ChatListArrives(s: State, pipe: string, u: nat) returns (ps: seq<Place>, text: string)
    requires Inv(s) && s.counter <= 0x8000_0000 && u < |s.users| && R.Asker(s, pipe, s.users[u].login, u)
    ensures Step(s, "chats" + "|" + pipe + "|" + s.users[u].login)
            == Done(s, [Letter(pipe, if ps == [] then "chats" + "|" + "OK" else "chats" + "|" + "OK" + "|" + text)])
    ensures forall p :: p in ps <==> Shows(s, u, p)
    ensures forall i, j :: 0 <= i < j < |ps| ==> LastAt(s, ps[i]).id > LastAt(s, ps[j]).id
    ensures ps != [] ==> text != ""
    ensures ps != [] && (forall i :: 0 <= i < |ps| ==> CleanRow(RowAt(s, u, ps[i]))) ==>
              && |RowsOf(Fields(text, '|'))| == |ps|
              && forall i :: 0 <= i < |ps| ==> Describes(s, u, RowsOf(Fields(text, '|'))[i], ps[i])
  {
    hide Inv, Shows, Step, Chats, Join, Fields, RowsOf, RowAt, R.Asker, Describes, LastAt, Response;
    ps := ChatsListedInOrder(s, pipe, u);
    R.ChatsLine(s, pipe, u);
    R.Words();
    text := "";
    if ps == [] {
      R.AnsweredShortly(CHATS, OK);
      assert [SEP] == "|";
    } else {
      text := Join(FieldsOfRows(s, u, ps), SEP);
      JoinLength(FieldsOfRows(s, u, ps), SEP);
      R.Answered(CHATS, OK, text);
      forall i | 0 <= i < |ps|
        ensures Describes(s, u, RowAt(s, u, ps[i]), ps[i])
      {
        assert ps[i] in ps;
        RowDescribes(s, u, ps[i]);
      }
    }
  }

  // ---- Beyond that bound the newest chat comes last ----

  function Welcomed(id: nat): Message { Message(SYSTEM, "User " + "ann" + " joined the chat", id) }

  // n posts of one user, from message 3 on.
  function Posts(n: nat): seq<Message> { if n == 0 then [] else Posts(n - 1) + [Message("ann", "x", n + 2)] }

  // One user with two groups, who has posted n messages to the second.
  function Busy(n: nat): State {
    State([User("ann", true)], [],
          [Group("aa", "ann", [0], [Welcomed(1)]), Group("zz", "ann", [0], [Welcomed(2)] + Posts(n))], Posts(n), n + 2)
  }

  function Asks(cmd: string, args: string): string { RequestText(cmd, "p", "ann", args) }

  const POST := Asks(PUSH_MSG, ArgsText(GROUP, "zz", "x"))

  function Repeated(request: string, n: nat): seq<string> {
    if n == 0 then [] else [request] + Repeated(request, n - 1)
  }

  lemma NamesAreFree()
    ensures Free("p", SEP) && Free("ann", SEP) && Free("zz", SEP) && Free("aa", SEP) && Free(NONE_USER, SEP)
    ensures "aa" != "zz" && "aa" != "bb" && "zz" != "bb" && "ann" != NONE_USER && "ann" != SYSTEM
  {
    assert |NONE_USER| == 6 && |SYSTEM| == 6 && |"ann"| == 3;
    assert "aa"[0] == 'a' && "zz"[0] == 'z' && "bb"[0] == 'b';
  }

  lemma PostGrows(n: nat)
    requires n + 3 < WORD
    ensures Step(Busy(n), POST).Done? && Step(Busy(n), POST).state == Busy(n + 1)
  {
    hide Step, Split, Free;
    NamesAreFree();
    WordsAreFree();
    var s := Busy(n);
    assert s.users[0].login == "ann" && FindUser(s.users, "ann") == 0;
    PostArrives(s, "p", "ann", GROUP, "zz", "x");
    assert s.groups[0].name == "aa" && s.groups[1].name == "zz" && FindGroup(s.groups, "zz") == 1;
    assert [Welcomed(2)] + Posts(n) + [Message("ann", "x", n + 3)] == [Welcomed(2)] + Posts(n + 1);
    assert Posts(n + 1) == Posts(n) + [Message("ann", "x", n + 3)];
  }

  lemma {:induction false} PostsGrow(k: nat, n: nat)
    requires k + n + 2 < WORD
    ensures Runs(Busy(k), Repeated(POST, n)) && After(Busy(k), Repeated(POST, n)) == Busy(k + n)
    decreases n
  {
    hide Step, Busy;
    if n > 0 {
      PostGrows(k);
      assert Repeated(POST, n)[1..] == Repeated(POST, n - 1);
      PostsGrow(k + 1, n - 1);
    }
  }

  // A create sent by ann.
  lemma CreateArrives(s: State, name: string)
    requires s.users == [User("ann", true)]
    ensures Step(s, Asks(CREATE, name)) == CreateGroup(s, "p", 0, name)
  {
    hide Split, Free, CreateGroup;
    NamesAreFree();
    WordsAreFree();
    WordsDiffer();
    CommandsDiffer();
    RequestParses(CREATE, "p", "ann", name);
    assert s.users[0].login == "ann" && FindUser(s.users, "ann") == 0;
    assert |LOGIN| == 5 && |CREATE| == 6;
  }

  lemma AnnLogsIn()
    ensures Step(EMPTY, RequestText(LOGIN, "p", NONE_USER, "ann")).Done?
    ensures Step(EMPTY, RequestText(LOGIN, "p", NONE_USER, "ann")).state == EMPTY.(users := [User("ann", true)])
  {
    hide Split, Free;
    NamesAreFree();
    WordsAreFree();
    RequestParses(LOGIN, "p", NONE_USER, "ann");
  }

  function Opening(): seq<string> {
    [RequestText(LOGIN, "p", NONE_USER, "ann"), Asks(CREATE, "aa"), Asks(CREATE, "zz")]
  }

  lemma OpeningRuns()
    ensures Runs(EMPTY, Opening()) && After(EMPTY, Opening()) == Busy(0)
  {
    hide Step;
    var s1 := EMPTY.(users := [User("ann", true)]);
    var s2 := s1.(groups := [Group("aa", "ann", [0], [Welcomed(1)])], counter := 1);
    AnnLogsIn();
    CreateArrives(s1, "aa");
    CreateArrives(s2, "zz");
    NamesAreFree();
    assert s2.groups[0].name == "aa" && FindGroup(s2.groups, "zz") == 1;
    assert Step(s1, Asks(CREATE, "aa")).state == s2;
    assert Step(s2, Asks(CREATE, "zz")).state == Busy(0) by {
      assert [Welcomed(2)] + Posts(0) == [Welcomed(2)];
    }
    var r := Opening();
    assert r[1..] == [Asks(CREATE, "aa"), Asks(CREATE, "zz")] && r[1..][1..] == [Asks(CREATE, "zz")]
           && r[1..][1..][1..] == [];
  }

  // One user logs in, opens two groups and posts to the second until message n + 2, then opens a third.
  function LongRun(n: nat): seq<string> { Opening() + Repeated(POST, n) + [Asks(CREATE, "bb")] }

  lemma LongRunRuns(n: nat)
    requires n + 3 < WORD
    ensures Runs(EMPTY, LongRun(n))
    ensures After(EMPTY, LongRun(n))
            == Busy(n).(groups := Busy(n).groups + [Group("bb", "ann", [0], [Welcomed(n + 3)])], counter := n + 3)
  {
    hide Step;
    OpeningRuns();
    PostsGrow(0, n);
    RunsOn(EMPTY, Opening(), Repeated(POST, n));
    var s := Busy(n);
    NamesAreFree();
    CreateArrives(s, "bb");
    assert s.groups[0].name == "aa" && s.groups[1].name == "zz" && FindGroup(s.groups, "bb") == 2;
    RunsOne(s, Asks(CREATE, "bb"));
    RunsOn(EMPTY, Opening() + Repeated(POST, n), [Asks(CREATE, "bb")]);
  }

  lemma KeyAtLimit()
    ensures Key(INT_LIMIT) == -0x8000_0000
  {
    KeyIsMinus(INT_LIMIT);
  }

  lemma ThreeGroupLines(a: Group, b: Group, c: Group)
    requires a.users == b.users == c.users == [0] && a.messages != [] && b.messages != [] && c.messages != []
    ensures GroupLines([a, b, c], 0)
            == [LineFor(GROUP, a.name, a.messages), LineFor(GROUP, b.name, b.messages),
               LineFor(GROUP, c.name, c.messages)]
  {
    hide LineFor;
    assert [a, b, c][..2] == [a, b] && [a, b][..1] == [a] && [a][..0] == [];
    assert GroupLines([a], 0) == [LineFor(GROUP, a.name, a.messages)];
    assert GroupLines([a, b], 0) == [LineFor(GROUP, a.name, a.messages), LineFor(GROUP, b.name, b.messages)];
  }

  lemma ThreeSorted(a: Line, b: Line, c: Line)
    requires b.key < a.key < c.key
    ensures Texts(Sort([a, b, c])) == b.text + a.text + c.text
  {
    hide Smaller;
    assert [a, b, c][1..] == [b, c] && [b, c][1..] == [c] && [c][1..] == [];
    assert Sort([c]) == [c];
    assert Sort([b, c]) == [b, c];
    assert Insert(a, [c]) == [a, c];
    assert Sort([a, b, c]) == [b, a, c];
    assert [b, a, c][..2] == [b, a] && [b, a][..1] == [b] && [b][..0] == [];
    assert Texts([b]) == b.text;
    assert Texts([b, a]) == b.text + a.text;
  }

  // After 2^31 + 1 messages the group opened last, and written to last, is listed at the end, behind
  // one in which nothing has happened since message 1.
  lemma NewestListedLast(pipe: string, n: nat)
    requires n + 2 == INT_LIMIT
    ensures Runs(EMPTY, LongRun(n))
    ensures Chats(After(EMPTY, LongRun(n)), pipe, 0)
            == Answer(After(EMPTY, LongRun(n)), pipe, CHATS, OK,
                      Strip(LineText(GROUP, "zz", Message("ann", "x", n + 2)) + LineText(GROUP, "aa", Welcomed(1))
                            + LineText(GROUP, "bb", Welcomed(n + 3))))
  {
    hide Sort, Texts, Strip, Key, LineText, Runs, After;
    LongRunRuns(n);
    var s := After(EMPTY, LongRun(n));
    var a, b, c := s.groups[0], s.groups[1], s.groups[2];
    assert b.messages[|b.messages| - 1] == Message("ann", "x", n + 2);
    KeyWraps();
    KeyAtLimit();
    ThreeGroupLines(a, b, c);
    assert s.groups == [a, b, c] && s.privates == [];
    var la, lb, lc := LineFor(GROUP, "aa", a.messages), LineFor(GROUP, "zz", b.messages),
        LineFor(GROUP, "bb", c.messages);
    assert Lines(s, 0) == [la, lb, lc];
    ThreeSorted(la, lb, lc);
  }
}
