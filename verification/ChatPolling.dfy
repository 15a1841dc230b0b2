// Incremental polling from end to end: the client asks with the cursor of the answer before, the
// server sends what is newer, and what comes out on the screen is the chat, once and in order.
module ChatPolling {
  import opened StringParser
  import opened Decimal
  import opened ChatState
  import opened ChatServer
  import opened ChatList
  import opened ChatInvariants
  import opened ChatWire
  import opened ChatClient

  datatype World = World(server: State, client: ClientState)

  // Any request, our client's own included, or a poll by our client (answered before it polls again).
  datatype Act = Other(request: string) | Poll

  function RequestOf(w: World, a: Act): string { if a.Poll? then PollText(w.client) else a.request }

  // The letters that are written to the client's pipe.
  function ToPipe(letters: seq<Letter>, pipe: string): seq<Letter> {
    if letters == [] then []
    else (if letters[0].pipe == pipe then [letters[0]] else []) + ToPipe(letters[1..], pipe)
  }

  // The client reads the letters a request brings it.
  function ReadAll(c: ClientState, letters: seq<Letter>): ClientState
    decreases |letters|
  {
    if letters == [] then c else ReadAll(Handled(c, letters[0].text), letters[1..])
  }

  function Next(w: World, a: Act): World
    requires Step(w.server, RequestOf(w, a)).Done?
  {
    var o := Step(w.server, RequestOf(w, a));
    World(o.state, ReadAll(w.client, ToPipe(o.letters, w.client.pipe)))
  }

  // An answer that neither lets the client in anywhere nor answers a poll.
  predicate Harmless(answer: string) {
    var f := Split(answer, 3, SEP);
    |f| >= 2 && (f[1] == ERROR || f[0] !in {LOGIN, PRIVATE_CHAT, CREATE, JOIN, GET_MSG})
  }

  // The request leaves the client in its chat, and is not a poll in its name.
  ghost predicate Stays(w: World, request: string) {
    Step(w.server, request).Done? ==>
      forall l :: l in ToPipe(Step(w.server, request).letters, w.client.pipe) ==> Harmless(l.text)
  }

  // The client stays in its chat and polls through its updater; all else is up to anybody.
  ghost predicate Happens(w: World, acts: seq<Act>)
    decreases |acts|
  {
    acts == [] ||
    (&& Step(w.server, RequestOf(w, acts[0])).Done? && (acts[0].Other? ==> Stays(w, acts[0].request))
     && Happens(Next(w, acts[0]), acts[1..]))
  }

  ghost function Finally(w: World, acts: seq<Act>): World
    requires Happens(w, acts)
    decreases |acts|
  {
    if acts == [] then w else Finally(Next(w, acts[0]), acts[1..])
  }

  // The messages of the chat a client in this state is looking at.
  function ChatOf(s: State, c: ClientState): seq<Message> {
    Log(s, ReadPlace(s, FindUser(s.users, c.login), ChatKind(c), c.chat))
  }

  function Upto(log: seq<Message>, id: nat): seq<Message> {
    if log == [] then []
    else
      var last := log[|log| - 1];
      Upto(log[..|log| - 1], id) + (if last.id <= id then [last] else [])
  }

  // Everything the answers contained, put behind one another.
  function Received(items: seq<Item>): string {
    if items == [] then ""
    else
      var last := items[|items| - 1];
      Received(items[..|items| - 1]) + (if last.Messages? then last.text + [SEP] else "")
  }

  // Everything that was shown as messages.
  function Shown(items: seq<Item>): seq<Output> {
    if items == [] then []
    else
      var last := items[|items| - 1];
      Shown(items[..|items| - 1]) + (if last.Messages? then Screen(last.text) else [])
  }

  // ---- Cursors ----

  lemma {:induction false} NothingNewer(log: seq<Message>, id: nat)
    requires forall i :: 0 <= i < |log| ==> log[i].id <= id
    ensures Newer(log, id) == [] && Upto(log, id) == log && LastId(log, id) == id
  {
    if log != [] {
      NothingNewer(log[..|log| - 1], id);
    }
  }

  lemma {:induction false} CursorSplits(log: seq<Message>, top: nat, id: nat)
    requires Rising(log, top)
    ensures Upto(log, id) + Newer(log, id) == log
    ensures LastId(log, id) == if log != [] && log[|log| - 1].id > id then log[|log| - 1].id else id
  {
    hide Rising;
    if log != [] {
      var less, last := log[..|log| - 1], log[|log| - 1];
      LastIsNewest(log, top);
      if last.id <= id {
        NothingNewer(log, id);
      } else {
        CursorSplits(less, top, id);
        assert log == less + [last];
      }
    }
  }

  lemma LastIsNewest(log: seq<Message>, top: nat)
    requires Rising(log, top) && log != []
    ensures Rising(log[..|log| - 1], top)
    ensures forall i :: 0 <= i < |log| - 1 ==> log[i].id < log[|log| - 1].id
  {
  }

  lemma {:induction false} CaughtUp(log: seq<Message>, top: nat, id: nat)
    requires Rising(log, top) && id <= top
    ensures Upto(log, LastId(log, id)) == log && id <= LastId(log, id) <= top
  {
    CursorSplits(log, top, id);
    NothingNewer(log, LastId(log, id));
  }

  lemma {:induction false} NewOnesBeyond(log: seq<Message>, more: seq<Message>, id: nat)
    requires forall i :: 0 <= i < |more| ==> more[i].id > id
    ensures Upto(log + more, id) == Upto(log, id)
  {
    if more == [] {
      assert log + more == log;
    } else {
      var all := log + more;
      assert all[..|all| - 1] == log + more[..|more| - 1] && all[|all| - 1] == more[|more| - 1];
      NewOnesBeyond(log, more[..|more| - 1], id);
    }
  }

  // ---- The chat looked at only grows ----

  lemma {:induction false} SameUser(a: seq<User>, b: seq<User>, login: string)
    requires SameLogins(a, b) && FindUser(a, login) < |a|
    ensures FindUser(b, login) == FindUser(a, login)
  {
  }

  lemma {:induction false} SameGroup(a: seq<Group>, b: seq<Group>, name: string)
    requires SameNames(a, b)
    ensures FindGroup(a, name) < |a| ==> FindGroup(b, name) == FindGroup(a, name)
    ensures FindGroup(a, name) == |a| ==> FindGroup(b, name) >= |a|
  {
    var i := FindGroup(b, name);
    if i < |a| {
      assert a[i].name == b[i].name;
    }
  }

  lemma {:induction false} SameNamed(us: seq<User>, vs: seq<User>, a: seq<Private>, b: seq<Private>, u: nat,
      name: string)
    requires SameLogins(us, vs) && SamePairs(a, b) && PairsOk(us, a)
    ensures FindNamed(us, a, u, name) < |a| ==> FindNamed(vs, b, u, name) == FindNamed(us, a, u, name)
    ensures FindNamed(us, a, u, name) == |a| ==> FindNamed(vs, b, u, name) >= |a|
  {
    forall i | 0 <= i < |a|
      ensures Named(vs, b[i], u, name) == Named(us, a[i], u, name)
    {
      assert b[i].user1 == a[i].user1 && b[i].user2 == a[i].user2;
    }
  }

  lemma ChatGrows(s: State, t: State, c: ClientState)
    requires Inv(s) && Grows(s, t) && FindUser(s.users, c.login) < |s.users|
    ensures Continued(ChatOf(s, c), ChatOf(t, c), s.counter)
    ensures FindUser(t.users, c.login) < |t.users|
  {
    hide LogsOk, GroupsOk, UsersOk;
    SameUser(s.users, t.users, c.login);
    var u := FindUser(s.users, c.login);
    SameGroup(s.groups, t.groups, c.chat);
    SameNamed(s.users, t.users, s.privates, t.privates, u, c.chat);
    var p, q := ReadPlace(s, u, ChatKind(c), c.chat), ReadPlace(t, u, ChatKind(c), c.chat);
    assert Continued(Log(s, q), Log(t, q), s.counter);
    assert Log(s, p) == Log(s, q);
  }

  lemma ChatRises(s: State, c: ClientState)
    requires Inv(s)
    ensures Rising(ChatOf(s, c), s.counter)
  {
  }

  // ---- One poll ----

  // What a poll does to the client, in terms of messages.
  lemma {:induction false} PollReads(s: State, c: ClientState, k: nat)
    requires Free(c.pipe, SEP) && Free(c.login, SEP) && Free(c.chat, SEP)
    requires c.mode != NotLogin && FindUser(s.users, c.login) < |s.users|
    requires c.cursor == ToString(k) && k <= LONG_MAX
    ensures var o, log := Step(s, PollText(c)), ChatOf(s, c);
            && o.Done? && o.state == s && |o.letters| == 1 && o.letters[0].pipe == c.pipe && Readable(o.letters[0].text)
            && var news := Strip(Encoded(Newer(log, k)));
            var c' := Handled(c, o.letters[0].text);
            if ReadPlace(s, FindUser(s.users, c.login), ChatKind(c), c.chat).Missing? then
              exists what :: c' == Say(c, Problem(what))
            else
              var c1 := c.(cursor := ToString(LastId(log, k)));
              c' == if news == "" then c1 else Say(c1, Messages(news))
  {
    hide Split, Free, Encoded, Newer, LastId, ToString, FindUser, Log, Step, Strip;
    var u, log := FindUser(s.users, c.login), ChatOf(s, c);
    KindIsFree(c);
    PollArrives(s, c.pipe, c.login, ChatKind(c), c.chat, c.cursor);
    IdSurvives(k);
    var p := ReadPlace(s, u, ChatKind(c), c.chat);
    WordsAreFree();
    WordsDiffer();
    if p.Missing? {
      ResponseParses(GET_MSG, ERROR, p.what);
      var letter := Step(s, PollText(c)).letters[0];
      assert letter == Letter(c.pipe, Response(GET_MSG, ERROR, p.what));
      assert Handled(c, letter.text) == Say(c, Problem("Error: " + p.what));
    } else {
      ResponseParses(GET_MSG, OK, PollAnswer(log, k));
      PollAnswerParses(log, k);
      PollAnswerNotEmpty(log, k);
    }
  }

  lemma KindIsFree(c: ClientState)
    ensures Free(ChatKind(c), SEP) && ChatKind(c) in {GROUP, PRIVATE} && PRIVATE != GROUP
  {
    WordsAreFree();
    WordsDiffer();
  }

  lemma PollAnswerNotEmpty(log: seq<Message>, k: nat)
    ensures PollAnswer(log, k) != ""
  {
  }

  // ---- No answer is ever read past its end ----

  predicate WellAnswered(o: Outcome) {
    o.Done? ==> forall i :: 0 <= i < |o.letters| ==> Readable(o.letters[i].text)
  }

  lemma PlainAnswer(s: State, pipe: string, cmd: string, status: string, answer: string)
    requires cmd in {LOGIN, PRIVATE_CHAT, CREATE, JOIN, PUSH_MSG, CHATS} || (cmd == GET_MSG && status == ERROR)
    requires status in {OK, ERROR}
    ensures WellAnswered(Answer(s, pipe, cmd, status, answer))
  {
    hide Split, Free;
    WordsAreFree();
    WordsDiffer();
    assert |CHATS| == 5 && |GET_MSG| == 7;
    ResponseParses(cmd, status, answer);
  }

  lemma PollAnswered(s: State, pipe: string, log: seq<Message>, k: nat)
    ensures WellAnswered(Answer(s, pipe, GET_MSG, OK, PollAnswer(log, k)))
  {
    hide Split, Free, PollAnswer;
    WordsAreFree();
    ResponseParses(GET_MSG, OK, PollAnswer(log, k));
    PollAnswerParses(log, k);
    PollAnswerNotEmpty(log, k);
  }

  lemma OpeningAnswered(s: State, pipe: string, u: nat, args: string)
    requires u < |s.users|
    ensures WellAnswered(OpenPrivate(s, pipe, u, args))
  {
    hide WellAnswered, FindUser, FindPair, Response;
    var o := OpenPrivate(s, pipe, u, args);
    PlainAnswer(o.state, pipe, PRIVATE_CHAT, ERROR, "нельзя говорить с самим собой");
    PlainAnswer(o.state, pipe, PRIVATE_CHAT, ERROR, "user " + args + " not found");
    PlainAnswer(o.state, pipe, PRIVATE_CHAT, OK, args);
  }

  lemma GroupAnswered(s: State, pipe: string, u: nat, args: string)
    requires u < |s.users|
    ensures WellAnswered(CreateGroup(s, pipe, u, args)) && WellAnswered(JoinGroup(s, pipe, u, args))
  {
    hide WellAnswered, FindGroup, Response, Welcome;
    var o, p := CreateGroup(s, pipe, u, args), JoinGroup(s, pipe, u, args);
    PlainAnswer(o.state, pipe, CREATE, ERROR, "chat " + args + " already exists");
    PlainAnswer(o.state, pipe, CREATE, OK, args);
    PlainAnswer(p.state, pipe, JOIN, ERROR, "chat " + args + " not found");
    PlainAnswer(p.state, pipe, JOIN, OK, args);
  }

  lemma ListAnswered(s: State, pipe: string, u: nat)
    ensures WellAnswered(Chats(s, pipe, u))
  {
    hide WellAnswered, Sort, Lines, Texts, Strip;
    PlainAnswer(s, pipe, CHATS, OK, Strip(Texts(Sort(Lines(s, u)))));
  }

  lemma MessagingAnswered(s: State, pipe: string, u: nat, mode: string, name: string, rest: string)
    requires u < |s.users|
    ensures WellAnswered(PutMsg(s, pipe, u, mode, name, rest)) && WellAnswered(GetMsg(s, pipe, u, mode, name, rest))
  {
    hide Readable, Split, Response, PollAnswer, Posted, Log;
    match WritePlace(s, u, mode, name) {
      case NoList =>
      case Missing(what) => PlainAnswer(s, pipe, GET_MSG, ERROR, what);
      case p =>
        var m := Message(s.users[u].login, rest, ChatState.Next(s.counter));
        var s' := Posted(s, p, m).(posts := s.posts + [m], counter := ChatState.Next(s.counter));
        PlainAnswer(s', pipe, PUSH_MSG, OK, "");
    }
    match ReadPlace(s, u, mode, name) {
      case NoList =>
      case Missing(what) => PlainAnswer(s, pipe, GET_MSG, ERROR, what);
      case p => PollAnswered(s, pipe, Log(s, p), ParseId(rest));
    }
  }

  lemma LoginAnswered(s: State, pipe: string, login: string)
    ensures WellAnswered(Login(s, pipe, login))
  {
    hide WellAnswered;
    forall t: State, status, answer | status in {OK, ERROR}
      ensures WellAnswered(Answer(t, pipe, LOGIN, status, answer))
    {
      PlainAnswer(t, pipe, LOGIN, status, answer);
    }
  }

  // Whatever is asked, every answer of the server has the fields its reader looks at.
  lemma AnswersAreReadable(s: State, request: string)
    ensures WellAnswered(Step(s, request))
  {
    hide Readable, Split, Login, Logout, OpenPrivate, CreateGroup, JoinGroup, PutMsg, GetMsg, Chats, FindUser;
    var f := Split(request, 4, SEP);
    if |f| >= 3 {
      var args := if |f| == 3 then "" else f[3];
      var u := FindUser(s.users, f[2]);
      LoginAnswered(s, f[1], args);
      if u < |s.users| {
        OpeningAnswered(s, f[1], u, args);
        GroupAnswered(s, f[1], u, args);
        ListAnswered(s, f[1], u);
        LogoutSilent(s, u);
        var a := Split(args, 3, SEP);
        if |a| >= 3 {
          MessagingAnswered(s, f[1], u, a[0], a[1], a[2]);
        }
      }
    }
  }

  lemma LogoutSilent(s: State, u: nat)
    requires u < |s.users|
    ensures WellAnswered(Logout(s, u))
  {
  }

  // ---- Whole runs ----

  predicate Follows(c: ClientState, c0: ClientState) {
    c.mode == c0.mode && c.login == c0.login && c.chat == c0.chat && c.pipe == c0.pipe
  }

  // The client stands at cursor k, and has got and shown the chat up to there.
  ghost predicate Following(w: World, c0: ClientState, k: nat) {
    && Inv(w.server) && Follows(w.client, c0) && c0.mode != NotLogin
       && FindUser(w.server.users, c0.login) < |w.server.users|
    && w.client.cursor == ToString(k) && k <= w.server.counter
    && Received(w.client.printed) == Received(c0.printed) + Encoded(Upto(ChatOf(w.server, c0), k))
    && (Clean(Upto(ChatOf(w.server, c0), k)) ==>
          Shown(w.client.printed) == Shown(c0.printed) + Printed(Upto(ChatOf(w.server, c0), k)))
  }

  lemma CleanParts(a: seq<Message>, b: seq<Message>)
    ensures Clean(a + b) <==> Clean(a) && Clean(b)
  {
    hide CleanMessage;
    var c := a + b;
    assert forall i :: 0 <= i < |a| ==> c[i] == a[i];
    assert forall i :: 0 <= i < |b| ==> c[|a| + i] == b[i];
    forall i | Clean(c) && 0 <= i < |b|
      ensures CleanMessage(b[i])
    {
      assert CleanMessage(c[|a| + i]);
    }
    forall i | Clean(c) && 0 <= i < |a|
      ensures CleanMessage(a[i])
    {
      assert CleanMessage(c[i]);
    }
  }

  lemma {:induction false} EncodedSplits(a: seq<Message>, b: seq<Message>)
    ensures Encoded(a + b) == Encoded(a) + Encoded(b)
  {
    if b == [] {
      assert a + b == a;
    } else {
      assert (a + b)[..|a + b| - 1] == a + b[..|b| - 1];
      EncodedSplits(a, b[..|b| - 1]);
    }
  }

  lemma {:induction false} EncodedEnds(ms: seq<Message>)
    requires ms != []
    ensures Strip(Encoded(ms)) + [SEP] == Encoded(ms)
    ensures Strip(Encoded(ms)) != ""
  {
  }

  lemma {:induction false} SaidMore(items: seq<Item>, item: Item)
    ensures Received(items + [item]) == Received(items) + (if item.Messages? then item.text + [SEP] else "")
    ensures Shown(items + [item]) == Shown(items) + (if item.Messages? then Screen(item.text) else [])
  {
    assert (items + [item])[..|items|] == items;
  }

  // What the client reads beside its polls neither moves it nor shows any messages.
  lemma HarmlessRead(c: ClientState, answer: string)
    requires Harmless(answer)
    ensures var c' := Handled(c, answer);
            && Follows(c', c) && c'.cursor == c.cursor
            && Received(c'.printed) == Received(c.printed) && Shown(c'.printed) == Shown(c.printed)
  {
    hide Split, Received, Shown;
    var f := Split(answer, 3, SEP);
    var args := if |f| == 2 then "" else f[2];
    SaidMore(c.printed, Problem("Error: " + args));
    SaidMore(c.printed, ChatInfo(args));
    assert Received(c.printed) + "" == Received(c.printed) && Shown(c.printed) + [] == Shown(c.printed);
  }

  lemma {:induction false} AllHarmless(c: ClientState, letters: seq<Letter>)
    requires forall l :: l in letters ==> Harmless(l.text)
    ensures var c' := ReadAll(c, letters);
            && Follows(c', c) && c'.cursor == c.cursor
            && Received(c'.printed) == Received(c.printed) && Shown(c'.printed) == Shown(c.printed)
    decreases |letters|
  {
    hide Harmless, Handled, Received, Shown;
    if letters != [] {
      HarmlessRead(c, letters[0].text);
      AllHarmless(Handled(c, letters[0].text), letters[1..]);
    }
  }

  lemma OtherKeepsFollowing(w: World, c0: ClientState, k: nat, request: string)
    requires Following(w, c0, k) && w.server.counter + 1 < WORD && Step(w.server, request).Done? && Stays(w, request)
    ensures Following(Next(w, Other(request)), c0, k)
    ensures Next(w, Other(request)).server.counter <= w.server.counter + 1
  {
    hide Inv, Grows, Step, FindUser, Received, Shown, Encoded, Printed, Upto, ToString;
    var s, t := w.server, Step(w.server, request).state;
    StepKeeps(s, request);
    CounterGrows(s, t);
    ChatGrows(s, t, c0);
    AllHarmless(w.client, ToPipe(Step(s, request).letters, w.client.pipe));
    var log, log' := ChatOf(s, c0), ChatOf(t, c0);
    var more := log'[|log|..];
    assert log' == log + more;
    NewOnesBeyond(log, more, k);
    CleanParts(log, more);
  }

  lemma CounterGrows(s: State, t: State)
    requires Grows(s, t)
    ensures s.counter <= t.counter
  {
  }

  lemma Gathers(log: seq<Message>, top: nat, k: nat, before: seq<Item>, items: seq<Item>)
    requires Rising(log, top)
    requires Received(items) == Received(before) + Encoded(Upto(log, k))
    requires Clean(Upto(log, k)) ==> Shown(items) == Shown(before) + Printed(Upto(log, k))
    ensures var news := Strip(Encoded(Newer(log, k)));
            var items' := if news == "" then items else items + [Messages(news)];
            && Received(items') == Received(before) + Encoded(log)
            && (Clean(log) ==> Shown(items') == Shown(before) + Printed(log))
  {
    hide Received, Shown, Encoded, Printed, Upto, Newer, Screen, Clean, Strip, LastId;
    var old', new' := Upto(log, k), Newer(log, k);
    var news := Strip(Encoded(new'));
    CursorSplits(log, top, k);
    EncodedSplits(old', new');
    PrintedSplits(old', new');
    CleanParts(old', new');
    NothingEncoded();
    if new' != [] {
      EncodedEnds(new');
      SaidMore(items, Messages(news));
      assert Received(before) + Encoded(old') + Encoded(new') == Received(before) + (Encoded(old') + Encoded(new'));
      if Clean(log) {
        MessagesShown(new');
        assert Shown(before) + Printed(old') + Printed(new') == Shown(before) + (Printed(old') + Printed(new'));
      }
    } else {
      assert old' + new' == old';
    }
  }

  lemma NothingEncoded()
    ensures Encoded([]) == "" && Strip("") == "" && Printed([]) == []
  {
  }

  lemma PollKeepsFollowing(w: World, c0: ClientState, k: nat) returns (k': nat)
    requires Following(w, c0, k) && w.server.counter <= LONG_MAX
    requires Free(c0.pipe, SEP) && Free(c0.login, SEP) && Free(c0.chat, SEP)
    ensures Step(w.server, PollText(w.client)).Done?
    ensures Following(Next(w, Poll), c0, k') && Next(w, Poll).server == w.server
    ensures Upto(ChatOf(w.server, c0), k') == ChatOf(w.server, c0)
  {
    hide Inv, Step, FindUser, Received, Shown, Encoded, Printed, Upto, Newer, ToString, Handled, PollText, LastId,
         Strip, Free, Screen, Clean, Log, Rising, Readable;
    var s, c := w.server, w.client;
    var log := ChatOf(s, c0);
    SameChat(s, c, c0);
    ChatRises(s, c0);
    PollReads(s, c, k);
    var o := Step(s, PollText(c));
    ReadOne(c, o.letters);
    OwnLetter(o.letters, c.pipe);
    var c' := Handled(c, o.letters[0].text);
    assert Next(w, Poll) == World(s, c');
    SameChat(s, c', c0);
    if ReadPlace(s, FindUser(s.users, c.login), ChatKind(c), c.chat).Missing? {
      var what :| c' == Say(c, Problem(what));
      SaidMore(c.printed, Problem(what));
      NoChat(s, c0, k);
      k' := k;
    } else {
      k' := LastId(log, k);
      CaughtUp(log, s.counter, k);
      Gathers(log, s.counter, k, c0.printed, c.printed);
    }
  }

  lemma SameChat(s: State, c: ClientState, c0: ClientState)
    ensures Follows(c, c0) ==> ChatOf(s, c) == ChatOf(s, c0) && ChatKind(c) == ChatKind(c0)
  {
  }

  lemma {:induction false} NoChat(s: State, c: ClientState, k: nat)
    requires ReadPlace(s, FindUser(s.users, c.login), ChatKind(c), c.chat).Missing?
    ensures ChatOf(s, c) == [] && Upto(ChatOf(s, c), k) == []
  {
  }

  lemma {:induction false} OwnLetter(letters: seq<Letter>, pipe: string)
    requires |letters| == 1 && letters[0].pipe == pipe
    ensures ToPipe(letters, pipe) == letters
  {
    assert letters[1..] == [] && letters == [letters[0]];
  }

  lemma {:induction false} ReadOne(c: ClientState, letters: seq<Letter>)
    requires |letters| == 1
    ensures ReadAll(c, letters) == Handled(c, letters[0].text)
  {
    assert letters[1..] == [];
  }

  lemma {:induction false} RunFollows(w: World, c0: ClientState, k: nat, acts: seq<Act>) returns (k': nat)
    requires Following(w, c0, k) && Happens(w, acts) && w.server.counter + |acts| <= LONG_MAX
    requires Free(c0.pipe, SEP) && Free(c0.login, SEP) && Free(c0.chat, SEP)
    ensures Following(Finally(w, acts), c0, k') && (acts == [] ==> k' == k)
    ensures acts != [] && acts[|acts| - 1].Poll? ==>
              Upto(ChatOf(Finally(w, acts).server, c0), k') == ChatOf(Finally(w, acts).server, c0)
    decreases |acts|
  {
    hide Following, Free, ChatOf, Upto, Step;
    k' := k;
    if acts != [] {
      if acts[0].Poll? {
        CounterBound(w, c0, k);
        k' := PollKeepsFollowing(w, c0, k);
      } else {
        OtherKeepsFollowing(w, c0, k, acts[0].request);
      }
      if |acts| > 1 {
        assert acts[1..][|acts| - 2] == acts[|acts| - 1];
      }
      k' := RunFollows(Next(w, acts[0]), c0, k', acts[1..]);
    }
  }

  lemma CounterBound(w: World, c0: ClientState, k: nat)
    requires Following(w, c0, k)
    ensures k <= w.server.counter
  {
  }

  lemma {:induction false} NothingUptoZero(log: seq<Message>, top: nat)
    requires Rising(log, top)
    ensures Upto(log, 0) == []
  {
    if log != [] {
      assert log[|log| - 1].id > 0;
      NothingUptoZero(log[..|log| - 1], top);
    }
  }

  lemma StartsFollowing(w: World)
    requires Inv(w.server) && w.client.cursor == "0" && (w.client.mode.InGroupChat? || w.client.mode.InPrivateChat?)
    requires FindUser(w.server.users, w.client.login) < |w.server.users|
    ensures Following(w, w.client, 0)
  {
    hide Inv, FindUser, Received, Shown;
    ChatRises(w.server, w.client);
    NothingUptoZero(ChatOf(w.server, w.client), w.server.counter);
    assert ToString(0) == "0";
    NothingEncoded();
    assert Received(w.client.printed) + "" == Received(w.client.printed);
    assert Shown(w.client.printed) + [] == Shown(w.client.printed);
  }

  // A client that has just entered a chat polls it while anybody sends anything, and it itself
  // anything that leaves it there: the answers put together are exactly the encoded chat up to the
  // client's cursor, and if nobody has smuggled a separator into that part of the chat, what is on
  // the screen is exactly those messages, each once and in order.  Right after a poll that is the
  // whole chat.
  lemma PollingShowsChatOnce(w: World, acts: seq<Act>) returns (k: nat)
    requires Inv(w.server) && w.client.cursor == "0" && (w.client.mode.InGroupChat? || w.client.mode.InPrivateChat?)
    requires FindUser(w.server.users, w.client.login) < |w.server.users|
    requires Free(w.client.pipe, SEP) && Free(w.client.login, SEP) && Free(w.client.chat, SEP)
    requires Happens(w, acts) && w.server.counter + |acts| <= LONG_MAX
    ensures var c0, w' := w.client, Finally(w, acts);
            var chat := ChatOf(w'.server, c0);
            && w'.client.cursor == ToString(k) && Upto(chat, k) <= chat
            && Received(w'.client.printed) == Received(c0.printed) + Encoded(Upto(chat, k))
            && (Clean(Upto(chat, k)) ==> Shown(w'.client.printed) == Shown(c0.printed) + Printed(Upto(chat, k)))
            && (acts != [] && acts[|acts| - 1].Poll? ==> Upto(chat, k) == chat)
  {
    hide Inv, Free, Happens, Finally, Upto, Received, Shown, Encoded, Printed, Newer;
    StartsFollowing(w);
    k := RunFollows(w, w.client, 0, acts);
    var w' := Finally(w, acts);
    var chat := ChatOf(w'.server, w.client);
    ChatRises(w'.server, w.client);
    CursorSplits(chat, w'.server.counter, k);
    PrefixOf(Upto(chat, k), Newer(chat, k), chat);
  }

  lemma PrefixOf(a: seq<Message>, b: seq<Message>, c: seq<Message>)
    requires a + b == c
    ensures a <= c
  {
  }

  // ---- Which requests leave the client where it is ----

  predicate GoesTo(o: Outcome, pipe: string) { o.Done? ==> forall l :: l in o.letters ==> l.pipe == pipe }

  lemma DispatchGoesBack(s: State, pipe: string, u: nat, cmd: string, args: string)
    requires u < |s.users|
    ensures GoesTo(Dispatch(s, pipe, u, cmd, args), pipe)
  {
    hide Split, Response, PollAnswer, Posted, Log, WritePlace, ReadPlace, FindUser, FindGroup, FindPair, Welcome, Sort,
         Lines, Texts, Strip;
  }

  // Every answer goes to the pipe the request names.
  lemma {:induction false} AnswersGoBack(s: State, request: string)
    requires |Split(request, 4, SEP)| >= 3
    ensures GoesTo(Step(s, request), Split(request, 4, SEP)[1])
  {
    hide Split, Dispatch, Response, FindUser;
    var f := Split(request, 4, SEP);
    var u := FindUser(s.users, f[2]);
    if u < |s.users| {
      DispatchGoesBack(s, f[1], u, f[0], if |f| == 3 then "" else f[3]);
    }
  }

  lemma {:induction false} NothingToPipe(letters: seq<Letter>, pipe: string)
    requires forall l :: l in letters ==> l.pipe != pipe
    ensures ToPipe(letters, pipe) == []
  {
    if letters != [] {
      NothingToPipe(letters[1..], pipe);
    }
  }

  // Requests that do not name the client's pipe.
  lemma {:induction false} OthersStay(w: World, request: string)
    requires |Split(request, 4, SEP)| < 3 || Split(request, 4, SEP)[1] != w.client.pipe
    ensures Stays(w, request)
  {
    hide Split, Dispatch, Login, Harmless;
    var o := Step(w.server, request);
    if |Split(request, 4, SEP)| >= 3 {
      AnswersGoBack(w.server, request);
    }
    if o.Done? {
      NothingToPipe(o.letters, w.client.pipe);
    }
  }

  lemma {:induction false} SingleStays(letters: seq<Letter>, pipe: string)
    requires forall l :: l in letters ==> Harmless(l.text)
    ensures forall l :: l in ToPipe(letters, pipe) ==> Harmless(l.text)
  {
    hide Harmless;
    ToPipeIn(letters, pipe);
  }

  lemma {:induction false} ToPipeIn(letters: seq<Letter>, pipe: string)
    ensures forall l :: l in ToPipe(letters, pipe) ==> l in letters
  {
    if letters != [] {
      ToPipeIn(letters[1..], pipe);
    }
  }

  lemma HarmlessAnswer(cmd: string, status: string, answer: string)
    requires cmd in {PUSH_MSG, CHATS} || (cmd == GET_MSG && status == ERROR)
    requires status in {OK, ERROR}
    ensures Harmless(Response(cmd, status, answer))
  {
    hide Split, Free;
    WordsAreFree();
    WordsDiffer();
    assert |CHATS| == 5 && CHATS[0] == 'c' && LOGIN[0] == 'l' && |GET_MSG| == 7 && |JOIN| == 4 && |CREATE| == 6;
    assert |PRIVATE_CHAT| == 7 && |LOGIN| == 5;
    ResponseParses(cmd, status, answer);
  }

  // The client's own posts and its asking for its chats.
  lemma OwnRequestsStay(w: World, text: string)
    requires w.client.mode != NotLogin
    requires Free(w.client.pipe, SEP) && Free(w.client.login, SEP) && Free(w.client.chat, SEP)
    ensures Stays(w, AskText(w.client, PUSH_MSG, ArgsText(ChatKind(w.client), w.client.chat, text)))
    ensures Stays(w, AskText(w.client, CHATS, ""))
  {
    PostStays(w, text);
    ListStays(w);
  }

  lemma PostStays(w: World, text: string)
    requires w.client.mode != NotLogin
    requires Free(w.client.pipe, SEP) && Free(w.client.login, SEP) && Free(w.client.chat, SEP)
    ensures Stays(w, AskText(w.client, PUSH_MSG, ArgsText(ChatKind(w.client), w.client.chat, text)))
  {
    hide Split, Free, Harmless, Response, Posted, Step, FindUser, WritePlace;
    var c, s := w.client, w.server;
    KindIsFree(c);
    PostArrives(s, c.pipe, c.login, ChatKind(c), c.chat, text);
    HarmlessAnswer(PUSH_MSG, OK, "");
    var u := FindUser(s.users, c.login);
    if u < |s.users| {
      if what: string :| WritePlace(s, u, ChatKind(c), c.chat) == Missing(what) {
        HarmlessAnswer(GET_MSG, ERROR, what);
      }
    }
    var o := Step(s, AskText(c, PUSH_MSG, ArgsText(ChatKind(c), c.chat, text)));
    if o.Done? {
      SingleStays(o.letters, c.pipe);
    }
  }

  lemma ListStays(w: World)
    requires w.client.mode != NotLogin && Free(w.client.pipe, SEP) && Free(w.client.login, SEP)
    ensures Stays(w, AskText(w.client, CHATS, ""))
  {
    hide Split, Free, Harmless, Response, FindUser, Sort, Lines, Texts, Strip, Login, Logout, OpenPrivate, CreateGroup,
         JoinGroup;
    var c, s := w.client, w.server;
    WordsAreFree();
    WordsDiffer();
    OpeningWords();
    assert |CHATS| == 5 && CHATS[0] == 'c' && LOGIN[0] == 'l' && |GET_MSG| == 7 && |JOIN| == 4 && |CREATE| == 6;
    assert |PRIVATE_CHAT| == 7 && |LOGOUT| == 6 && |PUSH_MSG| == 8;
    RequestParses(CHATS, c.pipe, c.login, "");
    var u := FindUser(s.users, c.login);
    HarmlessAnswer(CHATS, OK, Strip(Texts(Sort(Lines(s, u)))));
    var o := Step(s, AskText(c, CHATS, ""));
    if o.Done? {
      SingleStays(o.letters, c.pipe);
    }
  }

  // ---- From the request that opens the chat ----

  // Joining or creating a group, or opening a private chat.
  predicate Opens(cmd: string) { cmd == JOIN || cmd == CREATE || cmd == PRIVATE_CHAT }

  predicate Refused(s: State, u: nat, cmd: string, name: string)
    requires u < |s.users|
  {
    if cmd == PRIVATE_CHAT then s.users[u].login == name || FindUser(s.users, name) == |s.users|
    else if cmd == CREATE then FindGroup(s.groups, name) < |s.groups|
    else FindGroup(s.groups, name) == |s.groups|
  }

  // The client asks to be let in, and reads the answer.
  function Let(w: World, cmd: string, name: string): World
    requires Step(w.server, AskText(w.client, cmd, name)).Done?
  {
    var o := Step(w.server, AskText(w.client, cmd, name));
    World(o.state, ReadAll(w.client, o.letters))
  }

  function Opened(s: State, pipe: string, u: nat, cmd: string, name: string): Outcome
    requires u < |s.users|
  {
    if cmd == PRIVATE_CHAT then OpenPrivate(s, pipe, u, name)
    else if cmd == CREATE then CreateGroup(s, pipe, u, name)
    else JoinGroup(s, pipe, u, name)
  }

  predicate Exists(p: Place) { p.InPrivate? || p.InGroup? }

  function ModeFor(cmd: string): Mode { if cmd == PRIVATE_CHAT then InPrivateChat else InGroupChat }

  lemma OpeningWords()
    ensures LOGIN !in {PRIVATE_CHAT, JOIN, CREATE} && LOGOUT !in {PRIVATE_CHAT, JOIN, CREATE}
    ensures PRIVATE_CHAT != JOIN && PRIVATE_CHAT != CREATE && JOIN != CREATE
  {
    assert |LOGIN| == 5 && |LOGOUT| == 6 && |JOIN| == 4 && |CREATE| == 6 && |PRIVATE_CHAT| == 7;
    assert LOGOUT[0] == 'l' && CREATE[0] == 'c';
  }

  lemma OpeningIsStep(s: State, c: ClientState, cmd: string, name: string)
    requires Opens(cmd) && c.mode != NotLogin && FindUser(s.users, c.login) < |s.users|
    requires Free(c.pipe, SEP) && Free(c.login, SEP)
    ensures Step(s, AskText(c, cmd, name)) == Opened(s, c.pipe, FindUser(s.users, c.login), cmd, name)
  {
    hide Split, Free, FindUser, OpenPrivate, CreateGroup, JoinGroup;
    WordsAreFree();
    OpeningWords();
    RequestParses(cmd, c.pipe, c.login, name);
  }

  lemma RefusalAnswers(s: State, pipe: string, u: nat, cmd: string, name: string) returns (text: string)
    requires Opens(cmd) && u < |s.users| && Refused(s, u, cmd, name)
    ensures Opened(s, pipe, u, cmd, name) == Answer(s, pipe, cmd, ERROR, text)
  {
    hide Answer, FindUser, FindGroup;
    OpeningWords();
    text := if cmd == CREATE then "chat " + name + " already exists"
            else if cmd == JOIN then "chat " + name + " not found"
            else if s.users[u].login == name then "нельзя говорить с самим собой"
            else "user " + name + " not found";
  }

  // The answer to such a request that is not refused, and the chat it is about.
  lemma OpeningAnswers(s: State, pipe: string, u: nat, cmd: string, name: string)
    requires Opens(cmd) && u < |s.users| && !Refused(s, u, cmd, name)
    ensures var o := Opened(s, pipe, u, cmd, name);
            && o.Done? && o.state.users == s.users && o.letters == [Letter(pipe, Response(cmd, OK, name))]
            && Exists(ReadPlace(o.state, u, if cmd == PRIVATE_CHAT then PRIVATE else GROUP, name))
  {
    hide Response, Welcome;
    OpeningWords();
    WordsDiffer();
    var s' := Opened(s, pipe, u, cmd, name).state;
    if cmd == PRIVATE_CHAT {
      var v := FindUser(s.users, name);
      var i := FindPair(s.privates, u, v);
      assert Between(s'.privates[i], u, v) && Named(s.users, s'.privates[i], u, name);
    } else {
      assert s'.groups[FindGroup(s.groups, name)].name == name;
    }
  }

  lemma LetIn(w: World, cmd: string, name: string)
    requires Opens(cmd) && w.client.mode != NotLogin && FindUser(w.server.users, w.client.login) < |w.server.users|
    requires Free(w.client.pipe, SEP) && Free(w.client.login, SEP)
    ensures Step(w.server, AskText(w.client, cmd, name)).Done?
    ensures var w' := Let(w, cmd, name);
            var u := FindUser(w.server.users, w.client.login);
            && w'.server.users == w.server.users
            && if Refused(w.server, u, cmd, name) then
                 w'.server == w.server && exists text :: w'.client == Say(w.client, Problem(text))
               else
                 && (exists title :: w'.client == Inside(w.client, ModeFor(cmd), name, title))
                 && Exists(ReadPlace(w'.server, u, ChatKind(w'.client), name))
  {
    hide Split, Free, FindUser, Opened, Refused, Response, ReadPlace, Step, AskText;
    var u := FindUser(w.server.users, w.client.login);
    OpeningIsStep(w.server, w.client, cmd, name);
    var o := Opened(w.server, w.client.pipe, u, cmd, name);
    WordsAreFree();
    WordsDiffer();
    OpeningWords();
    if Refused(w.server, u, cmd, name) {
      var text := RefusalAnswers(w.server, w.client.pipe, u, cmd, name);
      ReadOne(w.client, o.letters);
      ResponseParses(cmd, ERROR, text);
      assert Handled(w.client, o.letters[0].text) == Say(w.client, Problem("Error: " + text));
    } else {
      OpeningAnswers(w.server, w.client.pipe, u, cmd, name);
      ReadOne(w.client, o.letters);
      ResponseParses(cmd, OK, name);
      var title := if cmd == PRIVATE_CHAT then "Chat with the user " else "Group chat ";
      assert Handled(w.client, o.letters[0].text) == Inside(w.client, ModeFor(cmd), name, title);
    }
  }

  // A logged-in client that asks to be let into a chat and is not refused sees that chat from its
  // first message on: once, in order, and completely right after each poll.
  lemma OpeningShowsChatOnce(w: World, cmd: string, name: string, acts: seq<Act>) returns (k: nat)
    requires Inv(w.server) && Opens(cmd) && w.client.mode != NotLogin
    requires FindUser(w.server.users, w.client.login) < |w.server.users|
    requires Free(w.client.pipe, SEP) && Free(w.client.login, SEP) && Free(name, SEP)
    requires !Refused(w.server, FindUser(w.server.users, w.client.login), cmd, name)
    requires w.server.counter + 1 + |acts| <= LONG_MAX
    requires Step(w.server, AskText(w.client, cmd, name)).Done? && Happens(Let(w, cmd, name), acts)
    ensures var w1 := Let(w, cmd, name);
            var w', u := Finally(w1, acts), FindUser(w.server.users, w.client.login);
            var chat := ChatOf(w'.server, w1.client);
            && w1.client.chat == name && w1.client.mode == ModeFor(cmd)
            && Exists(ReadPlace(w1.server, u, ChatKind(w1.client), name))
            && w'.client.cursor == ToString(k) && Upto(chat, k) <= chat
            && Received(w'.client.printed) == Received(w.client.printed) + Encoded(Upto(chat, k))
            && (Clean(Upto(chat, k)) ==> Shown(w'.client.printed) == Shown(w.client.printed) + Printed(Upto(chat, k)))
            && (acts != [] && acts[|acts| - 1].Poll? ==> Upto(chat, k) == chat)
  {
    hide Inv, Free, Happens, Finally, Upto, Received, Shown, Encoded, Printed, FindUser, Step, AskText, Refused,
         ReadPlace;
    LetIn(w, cmd, name);
    LetKeeps(w, cmd, name);
    k := PollingShowsChatOnce(Let(w, cmd, name), acts);
  }

  // Being let in shows no messages, and costs the counter one at most.
  lemma LetKeeps(w: World, cmd: string, name: string)
    requires Inv(w.server) && w.server.counter + 1 < WORD && Step(w.server, AskText(w.client, cmd, name)).Done?
    requires exists mode, title :: Let(w, cmd, name).client == Inside(w.client, mode, name, title)
    ensures var w' := Let(w, cmd, name);
            && Inv(w'.server) && w'.server.counter <= w.server.counter + 1
            && Received(w'.client.printed) == Received(w.client.printed)
            && Shown(w'.client.printed) == Shown(w.client.printed)
  {
    hide Inv, Grows, Step, AskText, Received, Shown;
    StepKeeps(w.server, AskText(w.client, cmd, name));
    var mode, title :| Let(w, cmd, name).client == Inside(w.client, mode, name, title);
    SaidMore(w.client.printed, Info(title + name));
  }
}
