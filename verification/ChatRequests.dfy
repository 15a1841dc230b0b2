// What each request line of a user does to the server, told by users, chats and messages instead of by
// the functions the server is made of.
module ChatRequests {
  import opened StringParser
  import opened Decimal
  import opened ChatState
  import opened ChatServer
  import opened ChatList
  import opened ChatInvariants
  import opened ChatWire

  // ---- Who asks, and about which chat ----

  predicate FirstUser(s: State, login: string, u: nat) {
    u < |s.users| && s.users[u].login == login && forall j :: 0 <= j < u ==> s.users[j].login != login
  }

  predicate FirstGroup(s: State, name: string, i: nat) {
    i < |s.groups| && s.groups[i].name == name && forall j :: 0 <= j < i ==> s.groups[j].name != name
  }

  predicate NoGroup(s: State, name: string) { forall j :: 0 <= j < |s.groups| ==> s.groups[j].name != name }

  predicate NoUser(s: State, login: string) { forall j :: 0 <= j < |s.users| ==> s.users[j].login != login }

  // User u takes part in private chat i.
  predicate PartOf(s: State, i: nat, u: nat) {
    i < |s.privates| && (s.privates[i].user1 == u || s.privates[i].user2 == u)
  }

  predicate FirstOwn(s: State, u: nat, i: nat) { PartOf(s, i, u) && forall j :: 0 <= j < i ==> !PartOf(s, j, u) }

  // Private chat i is the one of users u and v.
  predicate ChatOfTwo(s: State, i: nat, u: nat, v: nat) {
    && i < |s.privates|
    && ((s.privates[i].user1 == u && s.privates[i].user2 == v)
        || (s.privates[i].user1 == v && s.privates[i].user2 == u))
  }

  // A user who can be told apart on the wire.
  predicate Asker(s: State, pipe: string, login: string, u: nat) {
    Free(pipe, '|') && Free(login, '|') && FirstUser(s, login, u)
  }

  // What the server's 64-bit counter hands out next.
  function NewId(s: State): nat { (s.counter + 1) % 0x1_0000_0000_0000_0000 }

  function Joined(s: State, login: string): Message {
    Message("SYSTEM", "User " + login + " joined the chat", NewId(s))
  }

  // ---- The lines ----

  lemma CommandLine(cmd: string, pipe: string, login: string, args: string)
    ensures RequestText(cmd, pipe, login, args)
            == if args == "" then cmd + "|" + pipe + "|" + login else cmd + "|" + pipe + "|" + login + "|" + args
  {
    assert [SEP] == "|";
    var a := cmd + "|" + pipe + "|" + login;
    assert a + "" == a && a + ("|" + args) == a + "|" + args;
  }

  lemma PostLine(cmd: string, pipe: string, login: string, kind: string, name: string, rest: string)
    ensures RequestText(cmd, pipe, login, ArgsText(kind, name, rest))
            == cmd + "|" + pipe + "|" + login + "|" + kind + "|" + name + "|" + rest
  {
    assert [SEP] == "|";
    var a := cmd + "|" + pipe + "|" + login;
    var args := ArgsText(kind, name, rest);
    assert a + ("|" + args) == a + "|" + kind + "|" + name + "|" + rest;
  }

  lemma Answered(cmd: string, status: string, what: string)
    requires what != ""
    ensures Response(cmd, status, what) == cmd + "|" + status + "|" + what
  {
    assert [SEP] == "|";
    assert cmd + "|" + status + ("|" + what) == cmd + "|" + status + "|" + what;
  }

  lemma AnsweredShortly(cmd: string, status: string)
    ensures Response(cmd, status, "") == cmd + "|" + status
  {
    assert [SEP] == "|";
    assert cmd + "|" + status + "" == cmd + "|" + status;
  }

  lemma {:induction false} UserIs(s: State, login: string, u: nat)
    requires FirstUser(s, login, u)
    ensures FindUser(s.users, login) == u
  {
  }

  lemma {:induction false} GroupIs(s: State, name: string, i: nat)
    requires FirstGroup(s, name, i)
    ensures FindGroup(s.groups, name) == i
  {
  }

  // Every request but a login is carried out for the user it names.
  lemma RequestArrives(s: State, cmd: string, pipe: string, login: string, args: string, u: nat)
    requires Asker(s, pipe, login, u) && Free(cmd, '|') && cmd != LOGIN
    ensures Step(s, if args == "" then cmd + "|" + pipe + "|" + login else cmd + "|" + pipe + "|" + login + "|" + args)
            == Dispatch(s, pipe, u, cmd, args)
  {
    hide Split, Free, Dispatch, FindUser;
    UserIs(s, login, u);
    CommandLine(cmd, pipe, login, args);
    RequestParses(cmd, pipe, login, args);
  }

  lemma Words()
    ensures "login" == LOGIN && "logout" == LOGOUT && "private" == PRIVATE_CHAT && "join" == JOIN
    ensures "create" == CREATE && "push_msg" == PUSH_MSG && "get_msg" == GET_MSG && "chats" == CHATS
    ensures "GROUP" == GROUP && "PRIVATE" == PRIVATE && "OK" == OK && "ERROR" == ERROR
    ensures |LOGIN| == 5 && |LOGOUT| == 6 && |PRIVATE_CHAT| == 7 && |JOIN| == 4 && |CREATE| == 6
    ensures |PUSH_MSG| == 8 && |GET_MSG| == 7 && |CHATS| == 5 && LOGOUT != CREATE && LOGIN != CHATS
    ensures PRIVATE_CHAT != GET_MSG
  {
    assert LOGOUT[0] == 'l' && CREATE[0] == 'c' && LOGIN[0] == 'l' && CHATS[0] == 'c';
    assert PRIVATE_CHAT[0] == 'p' && GET_MSG[0] == 'g';
  }

  // ---- Posts ----

  lemma PostDone(s: State, pipe: string, u: nat, kind: string, name: string, text: string, p: Place)
    requires u < |s.users| && WritePlace(s, u, kind, name) == p && IsList(p)
    ensures var m := Message(s.users[u].login, text, NewId(s));
            PutMsg(s, pipe, u, kind, name, text)
            == Done(Posted(s, p, m).(posts := s.posts + [m], counter := NewId(s)),
                    [Letter(pipe, "push_msg" + "|" + "OK")])
  {
    AnsweredShortly(PUSH_MSG, OK);
  }

  // A post to a group goes into the group of that name, under the poster's login, as it was written and
  // under the next number; nothing else changes.
  lemma GroupPost(s: State, pipe: string, u: nat, i: nat, text: string)
    requires i < |s.groups| && u < |s.users|
    requires var login, name := s.users[u].login, s.groups[i].name;
             Asker(s, pipe, login, u) && Free(name, '|') && FirstGroup(s, name, i)
    ensures var login, name := s.users[u].login, s.groups[i].name;
            var m := Message(login, text, NewId(s));
            Step(s, "push_msg" + "|" + pipe + "|" + login + "|" + "GROUP" + "|" + name + "|" + text)
            == Done(s.(groups := s.groups[i := s.groups[i].(messages := s.groups[i].messages + [m])],
                       posts := s.posts + [m], counter := NewId(s)),
                    [Letter(pipe, "push_msg" + "|" + "OK")])
  {
    hide Split, Free, Step, FindUser, FindGroup, PutMsg;
    var login, name := s.users[u].login, s.groups[i].name;
    WordsAreFree();
    Words();
    PostLine("push_msg", pipe, login, "GROUP", name, text);
    UserIs(s, login, u);
    GroupIs(s, name, i);
    PostArrives(s, pipe, login, GROUP, name, text);
    PostDone(s, pipe, u, GROUP, name, text, InGroup(i));
  }

  lemma {:induction false} OwnIs(s: State, u: nat, i: nat)
    requires FirstOwn(s, u, i)
    ensures FindOwn(s.privates, u) == i
  {
    forall j | 0 <= j < i
      ensures !Involves(s.privates[j], u)
    {
      assert !PartOf(s, j, u);
    }
  }

  // A private post goes into the first private chat the poster takes part in, whoever it names.
  lemma PrivatePost(s: State, pipe: string, u: nat, i: nat, name: string, text: string)
    requires u < |s.users| && FirstOwn(s, u, i)
    requires Asker(s, pipe, s.users[u].login, u) && Free(name, '|')
    ensures var login := s.users[u].login;
            var m := Message(login, text, NewId(s));
            Step(s, "push_msg" + "|" + pipe + "|" + login + "|" + "PRIVATE" + "|" + name + "|" + text)
            == Done(s.(privates := s.privates[i := s.privates[i].(messages := s.privates[i].messages + [m])],
                       posts := s.posts + [m], counter := NewId(s)),
                    [Letter(pipe, "push_msg" + "|" + "OK")])
  {
    hide Split, Free, Step, FindUser, FindOwn, PutMsg;
    var login := s.users[u].login;
    WordsAreFree();
    Words();
    PostLine("push_msg", pipe, login, "PRIVATE", name, text);
    UserIs(s, login, u);
    OwnIs(s, u, i);
    PostArrives(s, pipe, login, PRIVATE, name, text);
    PostDone(s, pipe, u, PRIVATE, name, text, InPrivate(i));
  }

  lemma NotFoundAnswer(s: State, pipe: string, what: string)
    requires what != ""
    ensures Answer(s, pipe, GET_MSG, ERROR, what) == Done(s, [Letter(pipe, "get_msg" + "|" + "ERROR" + "|" + what)])
  {
    Answered(GET_MSG, ERROR, what);
  }

  lemma {:induction false} NoGroupIs(s: State, name: string)
    requires NoGroup(s, name)
    ensures FindGroup(s.groups, name) == |s.groups|
  {
  }

  // A post is refused if there is no such group, or if the poster has no private chat at all; for any
  // other kind of chat the server writes through a null pointer.
  lemma PostRefused(s: State, pipe: string, u: nat, kind: string, name: string, text: string)
    requires u < |s.users| && Asker(s, pipe, s.users[u].login, u) && Free(kind, '|') && Free(name, '|')
    ensures var o := Step(s, "push_msg" + "|" + pipe + "|" + s.users[u].login + "|" + kind + "|" + name + "|" + text);
            && (kind == "GROUP" && NoGroup(s, name) ==>
                  o == Done(s, [Letter(pipe, "get_msg" + "|" + "ERROR" + "|" + ("chat " + name + " not found"))]))
            && (kind == "PRIVATE" && (forall i :: 0 <= i < |s.privates| ==> !PartOf(s, i, u)) ==>
                  o == Done(s, [Letter(pipe, "get_msg" + "|" + "ERROR" + "|" + ("user " + name + " not found"))]))
            && (kind !in ["GROUP", "PRIVATE"] ==> o == Undefined)
  {
    hide Split, Free, Step, FindUser, FindGroup, FindOwn;
    var login := s.users[u].login;
    Words();
    WordsDiffer();
    PostLine("push_msg", pipe, login, kind, name, text);
    UserIs(s, login, u);
    PostArrives(s, pipe, login, kind, name, text);
    NotFoundAnswer(s, pipe, "chat " + name + " not found");
    NotFoundAnswer(s, pipe, "user " + name + " not found");
    if NoGroup(s, name) {
      NoGroupIs(s, name);
    }
    assert forall i :: 0 <= i < |s.privates| && Involves(s.privates[i], u) ==> PartOf(s, i, u);
  }

  // So whoever reads the group finds the post at its end, and nobody finds it anywhere else ...
  lemma GroupPostIsRead(s: State, pipe: string, u: nat, i: nat, text: string, v: nat, p: Place)
    requires i < |s.groups| && u < |s.users|
    requires var login, name := s.users[u].login, s.groups[i].name;
             Asker(s, pipe, login, u) && Free(name, '|') && FirstGroup(s, name, i)
    ensures var login, name := s.users[u].login, s.groups[i].name;
            var o := Step(s, "push_msg" + "|" + pipe + "|" + login + "|" + "GROUP" + "|" + name + "|" + text);
            && o.Done? && ReadPlace(s, v, "GROUP", name) == InGroup(i) == ReadPlace(o.state, v, "GROUP", name)
            && Log(o.state, p)
               == if p == InGroup(i) then Log(s, p) + [Message(login, text, NewId(s))] else Log(s, p)
  {
    hide Step, FindGroup, Free;
    var name := s.groups[i].name;
    GroupPost(s, pipe, u, i, text);
    GroupIs(s, name, i);
    var t := Step(s, "push_msg" + "|" + pipe + "|" + s.users[u].login + "|" + "GROUP" + "|" + name + "|" + text).state;
    assert FirstGroup(t, name, i);
    GroupIs(t, name, i);
    Words();
  }

  // ... and of a private post the same holds for the two whose chat is the poster's first.
  lemma PrivatePostIsRead(s: State, pipe: string, u: nat, i: nat, name: string, text: string, v: nat, p: Place)
    requires Inv(s) && u < |s.users| && v < |s.users| && FirstOwn(s, u, i) && ChatOfTwo(s, i, u, v)
    requires Asker(s, pipe, s.users[u].login, u) && Free(name, '|')
    ensures var login := s.users[u].login;
            var o := Step(s, "push_msg" + "|" + pipe + "|" + login + "|" + "PRIVATE" + "|" + name + "|" + text);
            && o.Done? && ReadPlace(o.state, u, "PRIVATE", s.users[v].login) == InPrivate(i)
            && ReadPlace(o.state, v, "PRIVATE", login) == InPrivate(i)
            && Log(o.state, p)
               == if p == InPrivate(i) then Log(s, p) + [Message(login, text, NewId(s))] else Log(s, p)
  {
    hide Step, FindNamed, Inv, Free, FirstOwn;
    var login := s.users[u].login;
    PrivatePost(s, pipe, u, i, name, text);
    var t := Step(s, "push_msg" + "|" + pipe + "|" + login + "|" + "PRIVATE" + "|" + name + "|" + text).state;
    ChatOfTwoIs(s, i, u, v);
    ChatOfTwoIs(s, i, v, u);
    SamePartners(s, t, u, s.users[v].login);
    SamePartners(s, t, v, login);
    Words();
    WordsDiffer();
  }

  lemma {:induction false} SamePartners(s: State, t: State, u: nat, name: string)
    requires t.users == s.users && |t.privates| == |s.privates|
    requires forall i :: 0 <= i < |s.privates| ==>
               t.privates[i].user1 == s.privates[i].user1 && t.privates[i].user2 == s.privates[i].user2
    ensures FindNamed(t.users, t.privates, u, name) == FindNamed(s.users, s.privates, u, name)
  {
    forall i | 0 <= i < |s.privates|
      ensures Named(t.users, t.privates[i], u, name) == Named(s.users, s.privates[i], u, name)
    {
    }
  }

  // ---- Polls ----

  // A poll of a group answers with the messages of the group of that name, whoever asks.
  lemma GroupPoll(s: State, pipe: string, u: nat, i: nat, cursor: string)
    requires i < |s.groups| && u < |s.users|
    requires var login, name := s.users[u].login, s.groups[i].name;
             Asker(s, pipe, login, u) && Free(name, '|') && FirstGroup(s, name, i)
    ensures var login, name := s.users[u].login, s.groups[i].name;
            Step(s, "get_msg" + "|" + pipe + "|" + login + "|" + "GROUP" + "|" + name + "|" + cursor)
            == Done(s, [Letter(pipe, "get_msg" + "|" + "OK" + "|" + PollAnswer(s.groups[i].messages, ParseId(cursor)))])
  {
    hide Split, Free, Step, FindUser, FindGroup, PollAnswer;
    var login, name := s.users[u].login, s.groups[i].name;
    WordsAreFree();
    Words();
    PostLine("get_msg", pipe, login, "GROUP", name, cursor);
    UserIs(s, login, u);
    GroupIs(s, name, i);
    PollArrives(s, pipe, login, GROUP, name, cursor);
    PollDone(s, pipe, s.groups[i].messages, ParseId(cursor));
  }

  lemma PollDone(s: State, pipe: string, log: seq<Message>, id: nat)
    ensures Answer(s, pipe, GET_MSG, OK, PollAnswer(log, id))
            == Done(s, [Letter(pipe, "get_msg" + "|" + "OK" + "|" + PollAnswer(log, id))])
  {
    hide Strip, Encoded, Newer;
    Answered(GET_MSG, OK, PollAnswer(log, id));
  }

  lemma {:induction false} ChatOfTwoIs(s: State, i: nat, u: nat, v: nat)
    requires Inv(s) && v < |s.users| && ChatOfTwo(s, i, u, v)
    ensures FindNamed(s.users, s.privates, u, s.users[v].login) == i
  {
    hide GroupsOk, LogsOk;
    var name := s.users[v].login;
    assert Named(s.users, s.privates[i], u, name);
    forall j | 0 <= j < i
      ensures !Named(s.users, s.privates[j], u, name)
    {
      assert !Between(s.privates[i], s.privates[j].user1, s.privates[j].user2);
    }
  }

  // A private poll answers with the messages of the asker's chat with the user it names.
  lemma PrivatePoll(s: State, pipe: string, u: nat, v: nat, i: nat, cursor: string)
    requires u < |s.users| && v < |s.users| && Inv(s) && ChatOfTwo(s, i, u, v)
    requires Asker(s, pipe, s.users[u].login, u) && Free(s.users[v].login, '|')
    ensures Step(s, "get_msg" + "|" + pipe + "|" + s.users[u].login + "|" + "PRIVATE" + "|" + s.users[v].login + "|"
                    + cursor)
            == Done(s, [Letter(pipe, "get_msg" + "|" + "OK" + "|"
                                     + PollAnswer(s.privates[i].messages, ParseId(cursor)))])
  {
    hide Split, Free, Step, FindUser, FindNamed, PollAnswer, Inv;
    var login, name := s.users[u].login, s.users[v].login;
    WordsAreFree();
    Words();
    WordsDiffer();
    PostLine("get_msg", pipe, login, "PRIVATE", name, cursor);
    UserIs(s, login, u);
    ChatOfTwoIs(s, i, u, v);
    PollArrives(s, pipe, login, PRIVATE, name, cursor);
    PollDone(s, pipe, s.privates[i].messages, ParseId(cursor));
  }

  // A poll is refused if there is no such group, or no private chat with a user of that name.
  lemma PollRefused(s: State, pipe: string, u: nat, kind: string, name: string, cursor: string)
    requires u < |s.users| && Asker(s, pipe, s.users[u].login, u) && Free(kind, '|') && Free(name, '|')
    requires PairsOk(s.users, s.privates)
    ensures var o := Step(s, "get_msg" + "|" + pipe + "|" + s.users[u].login + "|" + kind + "|" + name + "|" + cursor);
            && (kind == "GROUP" && NoGroup(s, name) ==>
                  o == Done(s, [Letter(pipe, "get_msg" + "|" + "ERROR" + "|" + ("chat " + name + " not found"))]))
            && (kind == "PRIVATE"
                && (forall v: nat, i: nat :: v < |s.users| && ChatOfTwo(s, i, u, v) ==> s.users[v].login != name) ==>
                  o == Done(s, [Letter(pipe, "get_msg" + "|" + "ERROR" + "|" + ("user " + name + " not found"))]))
            && (kind !in ["GROUP", "PRIVATE"] ==> o == Undefined)
  {
    hide Split, Free, Step, FindUser, FindGroup, FindNamed;
    var login := s.users[u].login;
    Words();
    WordsDiffer();
    PostLine("get_msg", pipe, login, kind, name, cursor);
    UserIs(s, login, u);
    PollArrives(s, pipe, login, kind, name, cursor);
    NotFoundAnswer(s, pipe, "chat " + name + " not found");
    NotFoundAnswer(s, pipe, "user " + name + " not found");
    if NoGroup(s, name) {
      NoGroupIs(s, name);
    }
    var i := FindNamed(s.users, s.privates, u, name);
    if i < |s.privates| {
      var c := s.privates[i];
      assert ChatOfTwo(s, i, u, if c.user1 == u && LoginOf(s.users, c.user2) == name then c.user2 else c.user1);
    }
  }

  // ---- Logging in and out ----

  predicate Reserved(login: string) { login == "__NONE" || login == "SYSTEM" }

  // Under a new login a user is added; under one that has logged out the user is let in again; one that
  // is logged in is refused, and so are the two reserved names.
  lemma LoginLine(s: State, pipe: string, called: string, login: string, u: nat)
    requires Free(pipe, '|') && Free(called, '|')
    ensures var line := "login" + "|" + pipe + "|" + called;
            var o := Step(s, if login == "" then line else line + "|" + login);
            var known := FirstUser(s, login, u);
            && (known && s.users[u].authorized ==>
                  o == Done(s, [Letter(pipe, "login" + "|" + "ERROR" + "|"
                                             + ("user " + login + " already logged in"))]))
            && (NoUser(s, login) && Reserved(login) ==>
                  o == Done(s, [Letter(pipe, "login" + "|" + "ERROR" + "|" + "forbidden name")]))
            && (NoUser(s, login) && !Reserved(login) ==>
                  o == Done(s.(users := s.users + [User(login, true)]), [Letter(pipe, "login" + "|" + "OK")]))
            && (known && !s.users[u].authorized && !Reserved(login) ==>
                  o == Done(s.(users := s.users[u := User(login, true)]), [Letter(pipe, "login" + "|" + "OK")]))
  {
    hide Split, Free, FindUser;
    WordsAreFree();
    Words();
    CommandLine("login", pipe, called, login);
    RequestParses(LOGIN, pipe, called, login);
    if FirstUser(s, login, u) {
      UserIs(s, login, u);
    }
    AnsweredShortly(LOGIN, OK);
    Answered(LOGIN, ERROR, "forbidden name");
    var known := "user " + login + " already logged in";
    Answered(LOGIN, ERROR, known);
  }

  // The state with user u logged out.
  function LoggedOut(s: State, u: nat): State
    requires u < |s.users|
  {
    s.(users := s.users[u := User(s.users[u].login, false)])
  }

  lemma LogoutLine(s: State, pipe: string, u: nat)
    requires u < |s.users| && Asker(s, pipe, s.users[u].login, u)
    ensures Step(s, "logout" + "|" + pipe + "|" + s.users[u].login)
            == Done(LoggedOut(s, u), [])
  {
    hide Free, Step;
    WordsAreFree();
    Words();
    var login := s.users[u].login;
    RequestArrives(s, "logout", pipe, login, "", u);
  }

  lemma BackIn(s: State, u: nat)
    requires u < |s.users| && s.users[u].authorized
    ensures var t := LoggedOut(s, u); t.(users := t.users[u := User(s.users[u].login, true)]) == s
    ensures FirstUser(s, s.users[u].login, u) ==> FirstUser(LoggedOut(s, u), s.users[u].login, u)
  {
    var t := LoggedOut(s, u);
    assert t.users[u := User(s.users[u].login, true)] == s.users;
  }

  // Whoever is logged in is refused a second time, from whatever pipe.
  lemma SecondLogin(s: State, u: nat, pipe: string, called: string)
    requires u < |s.users| && s.users[u].authorized && s.users[u].login != ""
    requires FirstUser(s, s.users[u].login, u) && Free(pipe, '|') && Free(called, '|')
    ensures Step(s, "login" + "|" + pipe + "|" + called + "|" + s.users[u].login)
            == Done(s, [Letter(pipe, "login" + "|" + "ERROR" + "|"
                                     + ("user " + s.users[u].login + " already logged in"))])
  {
    hide Free, Step, Reserved, FirstUser;
    LoginLine(s, pipe, called, s.users[u].login, u);
  }

  // Having logged out, the same user is let in again, and is who it was.
  lemma LoginAfterLogout(s: State, pipe: string, u: nat, other: string, called: string)
    requires u < |s.users| && s.users[u].authorized && s.users[u].login != "" && !Reserved(s.users[u].login)
    requires Asker(s, pipe, s.users[u].login, u) && Free(other, '|') && Free(called, '|')
    ensures var t := Step(s, "logout" + "|" + pipe + "|" + s.users[u].login);
            && t.Done? && t.letters == [] && |t.state.users| == |s.users| && !t.state.users[u].authorized
            && Step(t.state, "login" + "|" + other + "|" + called + "|" + s.users[u].login)
               == Done(s, [Letter(other, "login" + "|" + "OK")])
  {
    LogoutLine(s, pipe, u);
    BackIn(s, u);
    BackInLine(s, u, other, called);
  }

  lemma BackInLine(s: State, u: nat, pipe: string, called: string)
    requires u < |s.users| && s.users[u].authorized && s.users[u].login != "" && !Reserved(s.users[u].login)
    requires FirstUser(s, s.users[u].login, u) && Free(pipe, '|') && Free(called, '|')
    ensures Step(LoggedOut(s, u), "login" + "|" + pipe + "|" + called + "|" + s.users[u].login)
            == Done(s, [Letter(pipe, "login" + "|" + "OK")])
  {
    hide Free, Step, Reserved, FirstUser;
    BackIn(s, u);
    LoginLine(LoggedOut(s, u), pipe, called, s.users[u].login, u);
  }

  // ---- Opening chats ----

  // A create under a free name opens a group of its creator alone, with a word of welcome in it.
  lemma CreateLine(s: State, pipe: string, u: nat, name: string)
    requires u < |s.users| && Asker(s, pipe, s.users[u].login, u) && name != ""
    ensures var login := s.users[u].login;
            var o := Step(s, "create" + "|" + pipe + "|" + login + "|" + name);
            if NoGroup(s, name) then
              o == Done(s.(groups := s.groups + [Group(name, login, [u], [Joined(s, login)])], counter := NewId(s)),
                        [Letter(pipe, "create" + "|" + "OK" + "|" + name)])
            else o == Done(s, [Letter(pipe, "create" + "|" + "ERROR" + "|" + ("chat " + name + " already exists"))])
  {
    hide Free, Step, FindGroup;
    WordsAreFree();
    Words();
    WordsDiffer();
    CommandsDiffer();
    var login := s.users[u].login;
    RequestArrives(s, "create", pipe, login, name, u);
    Answered(CREATE, OK, name);
    var taken := "chat " + name + " already exists";
    Answered(CREATE, ERROR, taken);
  }

  // Joining makes a newcomer a member, with a word of welcome to the group of that name; for a member it
  // changes nothing.
  lemma JoinLine(s: State, pipe: string, u: nat, i: nat)
    requires u < |s.users| && Asker(s, pipe, s.users[u].login, u)
    requires i < |s.groups| && s.groups[i].name != "" && FirstGroup(s, s.groups[i].name, i)
    ensures var login, g := s.users[u].login, s.groups[i];
            Step(s, "join" + "|" + pipe + "|" + login + "|" + g.name)
            == Done(if u in g.users then s
                    else s.(groups := s.groups[i := Group(g.name, g.owner, g.users + [u],
                                                          g.messages + [Joined(s, login)])],
                            counter := NewId(s)),
                    [Letter(pipe, "join" + "|" + "OK" + "|" + g.name)])
  {
    hide Free, Step, FindGroup;
    WordsAreFree();
    Words();
    WordsDiffer();
    CommandsDiffer();
    var login, name := s.users[u].login, s.groups[i].name;
    GroupIs(s, name, i);
    RequestArrives(s, "join", pipe, login, name, u);
    Answered(JOIN, OK, name);
  }

  lemma JoinRefused(s: State, pipe: string, u: nat, name: string)
    requires u < |s.users| && Asker(s, pipe, s.users[u].login, u) && name != "" && NoGroup(s, name)
    ensures Step(s, "join" + "|" + pipe + "|" + s.users[u].login + "|" + name)
            == Done(s, [Letter(pipe, "join" + "|" + "ERROR" + "|" + ("chat " + name + " not found"))])
  {
    hide Free, Step, FindGroup;
    WordsAreFree();
    Words();
    WordsDiffer();
    CommandsDiffer();
    var login := s.users[u].login;
    NoGroupIs(s, name);
    RequestArrives(s, "join", pipe, login, name, u);
    var what := "chat " + name + " not found";
    Answered(JOIN, ERROR, what);
  }

  // A newcomer is a member from then on: asking again adds nothing.
  lemma JoinedIsMember(s: State, pipe: string, u: nat, i: nat)
    requires u < |s.users| && Asker(s, pipe, s.users[u].login, u)
    requires i < |s.groups| && s.groups[i].name != "" && FirstGroup(s, s.groups[i].name, i)
    ensures var join := "join" + "|" + pipe + "|" + s.users[u].login + "|" + s.groups[i].name;
            var o := Step(s, join);
            && o.Done? && i < |o.state.groups| && u in o.state.groups[i].users
            && Step(o.state, join) == Done(o.state, o.letters)
  {
    hide Free, Step;
    JoinLine(s, pipe, u, i);
    var t := Step(s, "join" + "|" + pipe + "|" + s.users[u].login + "|" + s.groups[i].name).state;
    assert t.groups[i].name == s.groups[i].name && FirstGroup(t, s.groups[i].name, i);
    if u !in s.groups[i].users {
      assert t.groups[i].users[|s.groups[i].users|] == u;
    }
    JoinLine(t, pipe, u, i);
  }

  // Opening a private chat with somebody else adds one of the two, unless there is one already.
  lemma PrivateLine(s: State, pipe: string, u: nat, v: nat)
    requires u < |s.users| && v < |s.users| && Asker(s, pipe, s.users[u].login, u)
    requires FirstUser(s, s.users[v].login, v) && s.users[v].login != "" && u != v
    ensures var login, name := s.users[u].login, s.users[v].login;
            Step(s, "private" + "|" + pipe + "|" + login + "|" + name)
            == Done(if exists i :: 0 <= i < |s.privates| && ChatOfTwo(s, i, u, v) then s
                    else s.(privates := s.privates + [Private(u, v, [])]),
                    [Letter(pipe, "private" + "|" + "OK" + "|" + name)])
  {
    hide Free, Step, FindUser, FindPair;
    WordsAreFree();
    Words();
    WordsDiffer();
    CommandsDiffer();
    var login, name := s.users[u].login, s.users[v].login;
    UserIs(s, name, v);
    UserIs(s, login, u);
    RequestArrives(s, "private", pipe, login, name, u);
    Answered(PRIVATE_CHAT, OK, name);
    var k := FindPair(s.privates, u, v);
    assert k < |s.privates| ==> ChatOfTwo(s, k, u, v);
    assert forall i :: 0 <= i < |s.privates| && ChatOfTwo(s, i, u, v) ==> Between(s.privates[i], u, v);
  }

  function NoPrivate(login: string, name: string): string {
    if name == login then "нельзя говорить с самим собой" else "user " + name + " not found"
  }

  // With oneself or with a stranger there is none.
  lemma PrivateRefused(s: State, pipe: string, u: nat, name: string)
    requires u < |s.users| && Asker(s, pipe, s.users[u].login, u) && name != ""
    requires name == s.users[u].login || NoUser(s, name)
    ensures var o := Step(s, "private" + "|" + pipe + "|" + s.users[u].login + "|" + name);
            o == Done(s, [Letter(pipe, "private" + "|" + "ERROR" + "|" + NoPrivate(s.users[u].login, name))])
  {
    hide Free, Step, FindUser, FindPair;
    WordsAreFree();
    Words();
    WordsDiffer();
    CommandsDiffer();
    var login := s.users[u].login;
    UserIs(s, login, u);
    RequestArrives(s, "private", pipe, login, name, u);
    assert Dispatch(s, pipe, u, PRIVATE_CHAT, name) == OpenPrivate(s, pipe, u, name);
    var what := NoPrivate(login, name);
    Answered(PRIVATE_CHAT, ERROR, what);
  }

  // ---- The list of chats, and all else ----

  lemma ChatsLine(s: State, pipe: string, u: nat)
    requires u < |s.users| && Asker(s, pipe, s.users[u].login, u)
    ensures Step(s, "chats" + "|" + pipe + "|" + s.users[u].login) == Chats(s, pipe, u)
  {
    hide Free, Step, Chats, Split;
    WordsAreFree();
    Words();
    WordsDiffer();
    CommandsDiffer();
    RequestArrives(s, "chats", pipe, s.users[u].login, "", u);
    assert CHATS[0] == 'c' && CHATS[1] == 'h' && CREATE[1] == 'r';
  }

  // Whatever a stranger asks for, but to be let in, is not even answered.
  lemma StrangersIgnored(s: State, cmd: string, pipe: string, login: string, args: string)
    requires Free(cmd, '|') && Free(pipe, '|') && Free(login, '|') && NoUser(s, login) && cmd != "login"
    ensures var line := cmd + "|" + pipe + "|" + login;
            Step(s, if args == "" then line else line + "|" + args) == Done(s, [])
  {
    hide Split, Free, Dispatch;
    CommandLine(cmd, pipe, login, args);
    RequestParses(cmd, pipe, login, args);
  }
}
