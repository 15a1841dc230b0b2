// The list of a user's chats, most recent first (cmd_chats).
module ChatList {
  import opened StringParser
  import opened Decimal
  import opened ChatState

  // -id as an unsigned long, cut down to an int.
  function Key(id: nat): int {
    var low := (WORD - id % WORD) % 0x1_0000_0000;
    if low < 0x8000_0000 then low else low - 0x1_0000_0000
  }

  datatype Line = Line(key: int, text: string)

  function LineText(mode: string, name: string, m: Message): string {
    mode + [SEP] + name + [SEP] + m.from + [SEP] + m.text + [SEP]
  }

  function LineFor(mode: string, name: string, log: seq<Message>): Line
    requires log != []
  {
    var m := log[|log| - 1];
    Line(Key(m.id), LineText(mode, name, m))
  }

  function OtherName(us: seq<User>, c: Private, u: nat): string {
    if c.user2 == u then LoginOf(us, c.user1) else if c.user1 == u then LoginOf(us, c.user2) else ""
  }

  function PrivateLines(us: seq<User>, ps: seq<Private>, u: nat): seq<Line> {
    if ps == [] then []
    else
      var c := ps[|ps| - 1];
      var other := OtherName(us, c, u);
      PrivateLines(us, ps[..|ps| - 1], u)
      + (if other != "" && c.messages != [] then [LineFor(PRIVATE, other, c.messages)] else [])
  }

  function GroupLines(gs: seq<Group>, u: nat): seq<Line> {
    if gs == [] then []
    else
      var g := gs[|gs| - 1];
      GroupLines(gs[..|gs| - 1], u)
      + (if u in g.users && g.messages != [] then [LineFor(GROUP, g.name, g.messages)] else [])
  }

  function Lines(s: State, u: nat): seq<Line> { PrivateLines(s.users, s.privates, u) + GroupLines(s.groups, u) }

  // ---- std::sort on pairs of a number and a string ----

  predicate Smaller(a: string, b: string) {
    if a == [] || b == [] then a == [] && b != []
    else a[0] < b[0] || (a[0] == b[0] && Smaller(a[1..], b[1..]))
  }

  predicate Before(a: Line, b: Line) { a.key < b.key || (a.key == b.key && Smaller(a.text, b.text)) }

  function Insert(a: Line, ls: seq<Line>): seq<Line> {
    if ls == [] || !Before(ls[0], a) then [a] + ls else [ls[0]] + Insert(a, ls[1..])
  }

  function Sort(ls: seq<Line>): seq<Line> { if ls == [] then [] else Insert(ls[0], Sort(ls[1..])) }

  function Texts(ls: seq<Line>): string {
    if ls == [] then "" else Texts(ls[..|ls| - 1]) + ls[|ls| - 1].text
  }

  function Chats(s: State, pipe: string, u: nat): Outcome {
    Answer(s, pipe, CHATS, OK, Strip(Texts(Sort(Lines(s, u)))))
  }
}
