// A client and the server together: what a user's command leads to, once its request line has been
// carried out and the answer read.
module ChatSession {
  import opened StringParser
  import opened Decimal
  import opened ChatState
  import opened ChatServer
  import opened ChatList
  import opened ChatInvariants
  import opened ChatWire
  import opened ChatClient
  import opened ChatRequests
  import L = ChatListing

  // The fields that go into a request line can be told apart there.
  predicate Tidy(c: ClientState) { Free(c.pipe, '|') && Free(c.login, '|') && Free(c.chat, '|') }

  // The client asks for exactly this.
  predicate Sends(c: ClientState, c': ClientState, line: string) { c'.sent == c.sent + [line] }

  // Nothing is sent; the user is told why.
  predicate Complains(c: ClientState, c': ClientState, why: string) {
    c' == c.(printed := c.printed + [Problem(why)])
  }

  // ---- Pushing a message ----

  // What the user typed, as far as it is sent.
  function Cut(text: string): string { if |text| > 2048 then text[..2048] else text }

  lemma {:induction false} PushedLine(c: ClientState, text: string)
    requires c.mode != NotLogin && Free(text, '|')
    ensures Sends(c, Pushed(c, text), "push_msg" + "|" + c.pipe + "|" + c.login + "|"
                  + (if c.mode == InGroupChat then "GROUP" else "PRIVATE") + "|" + c.chat + "|" + Cut(text))
  {
    PostLine(PUSH_MSG, c.pipe, c.login, ChatKind(c), c.chat, Cut(text));
  }

  lemma NothingPushed(c: ClientState, text: string)
    requires c.mode == NotLogin || !Free(text, '|')
    ensures Complains(c, Pushed(c, text), if c.mode == NotLogin then "user is not logged in"
                                          else "Text contains forbidden characters")
  {
  }

  // The server's state after user u has posted to list p of its chats.
  function WithPost(s: State, p: Place, m: Message): State {
    match p
    case InGroup(i) =>
      if i < |s.groups| then
        s.(groups := s.groups[i := s.groups[i].(messages := s.groups[i].messages + [m])],
           posts := s.posts + [m], counter := m.id)
      else s
    case InPrivate(i) =>
      if i < |s.privates| then
        s.(privates := s.privates[i := s.privates[i].(messages := s.privates[i].messages + [m])],
           posts := s.posts + [m], counter := m.id)
      else s
    case _ => s
  }

  // Where a client's post has to end up: in the group it is in, or in its user's first private chat.
  predicate Target(s: State, c: ClientState, u: nat, p: Place) {
    if c.mode == InGroupChat then p.InGroup? && FirstGroup(s, c.chat, p.i) else p.InPrivate? && FirstOwn(s, u, p.i)
  }

  // The one line sent makes the server add the text, cut to size, to that list.
  lemma PushServed(s: State, c: ClientState, text: string, u: nat, p: Place)
    requires c.mode != NotLogin && Tidy(c) && FirstUser(s, c.login, u) && Target(s, c, u, p) && Free(text, '|')
    ensures |Pushed(c, text).sent| == |c.sent| + 1 && Pushed(c, text).sent[..|c.sent|] == c.sent
    ensures Step(s, Pushed(c, text).sent[|c.sent|])
            == Done(WithPost(s, p, Message(c.login, Cut(text), NewId(s))), [Letter(c.pipe, "push_msg" + "|" + "OK")])
  {
    hide Free, Step, Pushed;
    PushedLine(c, text);
    if c.mode == InGroupChat {
      GroupPost(s, c.pipe, u, p.i, Cut(text));
    } else {
      PrivatePost(s, c.pipe, u, p.i, c.chat, Cut(text));
    }
  }

  // The two objects at work: one line is sent, and the server adds the text, cut to size, to the chat
  // under the client's login; a text with a separator, or a client not logged in, leaves all as it was.
  method Push(client: Client, server: Server, text: string, ghost u: nat, ghost p: Place) returns (ok: bool)
    requires client.mode != NotLogin ==>
               && Tidy(client.View()) && FirstUser(server.View(), client.login, u)
               && Target(server.View(), client.View(), u, p)
    modifies client, server
    ensures ok && client.mode == old(client.mode) && client.chatName == old(client.chatName)
    ensures if old(client.mode) == NotLogin || '|' in text then
              client.sent == old(client.sent) && server.View() == old(server.View()) && server.sent == old(server.sent)
            else
              && |client.sent| == |old(client.sent)| + 1
              && (var m := Message(old(client.login), Cut(text), old(NewId(server.View())));
                  server.View() == WithPost(old(server.View()), p, m))
              && server.sent == old(server.sent) + [Letter(client.pipe, "push_msg" + "|" + "OK")]
  {
    hide Step, Target, Tidy, FirstUser, WithPost;
    ghost var c, s := client.View(), server.View();
    var before := |client.sent|;
    client.CmdPush(text);
    ok := true;
    if c.mode == NotLogin || SEP in text {
      NothingPushed(c, text);
    } else {
      PushServed(s, c, text, u, p);
    }
    if |client.sent| > before {
      ok := server.RequestHandler(client.sent[before]);
    }
  }

  // ---- Logging in and out ----

  // What the server has to know for a login to succeed: nobody is logged in under it, and it is not one of
  // the two reserved names.
  predicate MayLogIn(s: State, login: string) {
    !Reserved(login) && forall j :: 0 <= j < |s.users| && s.users[j].login == login ==> !s.users[j].authorized
  }

  // The user's state once let in under the login.
  ghost predicate LetInAs(s: State, t: State, login: string) {
    exists u: nat ::
      && FirstUser(t, login, u) && t.users[u].authorized
      && if u < |s.users| then t == s.(users := s.users[u := User(login, true)])
         else t == s.(users := s.users + [User(login, true)])
  }

  lemma {:induction false} OkRead(c: ClientState, cmd: string, status: string, what: string)
    requires Free(cmd, '|') && Free(status, '|')
    ensures Split(cmd + "|" + status, 3, '|') == [cmd, status]
    ensures what != "" ==> Split(cmd + "|" + status + "|" + what, 3, '|') == [cmd, status, what]
  {
    hide Split, Free;
    ResponseParses(cmd, status, "");
    AnsweredShortly(cmd, status);
    ResponseParses(cmd, status, what);
    if what != "" {
      Answered(cmd, status, what);
    }
  }

  lemma {:induction false} SomeUser(s: State, login: string) returns (u: nat)
    ensures u <= |s.users| && if u < |s.users| then FirstUser(s, login, u) else NoUser(s, login)
  {
    u := FindUser(s.users, login);
  }

  // A name of 2 to 20 characters without a separator goes out as it is; nothing else goes out.
  lemma LoginLineSent(c: ClientState, login: string)
    ensures var c1 := LoginAsked(c, login);
            if c.mode != NotLogin then Complains(c, c1, "user is already logged in")
            else if |login| < 2 || |login| > 20 then
              Complains(c, c1, "Name size must be greater than 1 and less than 21")
            else if !Free(login, '|') then Complains(c, c1, "Name contains forbidden characters")
            else
              Sends(c, c1, "login" + "|" + c.pipe + "|" + "__NONE" + "|" + login)
              && c1 == c.(login := login, sent := c1.sent)
  {
    CommandLine(LOGIN, c.pipe, NONE_USER, login);
  }

  // Logging in, from the command to the answer read: the server lets the user in and the client reaches the
  // main menu under that login exactly if the name may log in; otherwise nothing changes but an error shown.
  lemma LogIn(s: State, c: ClientState, login: string)
    requires c.mode == NotLogin && Free(c.pipe, '|') && 2 <= |login| <= 20 && Free(login, '|')
    requires UsersOk(s.users)
    ensures var c1 := LoginAsked(c, login);
            var o := Step(s, "login" + "|" + c.pipe + "|" + "__NONE" + "|" + login);
            && o.Done? && |o.letters| == 1 && o.letters[0].pipe == c.pipe
            && var c2 := Handled(c1, o.letters[0].text);
            && c2.login == login && c2.sent == c1.sent && |c2.printed| == |c.printed| + 1
            && if MayLogIn(s, login) then
                 LetInAs(s, o.state, login) && c2.mode == InMainMenu && c2.printed[|c.printed|].Info?
               else o.state == s && c2.mode == NotLogin && c2.printed[|c.printed|].Problem?
  {
    hide Split, Step, Free;
    var u := SomeUser(s, login);
    Words();
    WordsAreFree();
    NoneIsFree();
    LoginLineSent(c, login);
    LoginLine(s, c.pipe, "__NONE", login, u);
    OkRead(c, "login", "OK", "");
    OkRead(c, "login", "ERROR", "user " + login + " already logged in");
    OkRead(c, "login", "ERROR", "forbidden name");
    if MayLogIn(s, login) {
      var t := Step(s, "login" + "|" + c.pipe + "|" + "__NONE" + "|" + login).state;
      assert FirstUser(t, login, u) && t.users[u].authorized;
    }
  }

  lemma NoneIsFree()
    ensures Free("__NONE", '|')
  {
  }

  // Logging out goes unanswered: the server forgets the client's user was let in, and may let it in again.
  lemma LogOut(s: State, c: ClientState, u: nat)
    requires c.mode != NotLogin && Tidy(c) && FirstUser(s, c.login, u) && UsersOk(s.users)
    ensures var c1, line := LogoutAsked(c), "logout" + "|" + c.pipe + "|" + c.login;
            && Sends(c, c1, line) && c1 == c.(mode := NotLogin, sent := c1.sent, printed := c1.printed)
            && c1.printed == c.printed + [Info("logout successful")]
            && Step(s, line) == Done(s.(users := s.users[u := User(c.login, false)]), [])
            && MayLogIn(Step(s, line).state, c.login)
  {
    hide Free, Step;
    CommandLine(LOGOUT, c.pipe, c.login, "");
    LogoutLine(s, c.pipe, u);
  }

  // ---- Opening chats ----

  // The other commands go out as they are, a create if the name has 2 to 20 characters and no separator;
  // before logging in none does.
  lemma OpeningLinesSent(c: ClientState, name: string)
    requires name != ""
    ensures if c.mode == NotLogin then
              && Complains(c, OpeningAsked(c, JOIN, name), "user is not logged in")
              && Complains(c, OpeningAsked(c, PRIVATE_CHAT, name), "user is not logged in")
              && Complains(c, CreateAsked(c, name), "user is not logged in")
            else
              && Sends(c, OpeningAsked(c, JOIN, name), "join" + "|" + c.pipe + "|" + c.login + "|" + name)
              && Sends(c, OpeningAsked(c, PRIVATE_CHAT, name), "private" + "|" + c.pipe + "|" + c.login + "|" + name)
              && if |name| < 2 || |name| > 20 then
                   Complains(c, CreateAsked(c, name), "Chat name size must be greater than 1 and less than 21")
                 else if !Free(name, '|') then
                   Complains(c, CreateAsked(c, name), "Chat name contains forbidden characters")
                 else Sends(c, CreateAsked(c, name), "create" + "|" + c.pipe + "|" + c.login + "|" + name)
  {
    CommandLine(JOIN, c.pipe, c.login, name);
    CommandLine(PRIVATE_CHAT, c.pipe, c.login, name);
    CommandLine(CREATE, c.pipe, c.login, name);
  }

  // The client once it has read that its group is open.
  lemma CreateAnswered(s: State, c: ClientState, u: nat, name: string)
    requires c.mode != NotLogin && Tidy(c) && FirstUser(s, c.login, u)
    requires 2 <= |name| <= 20 && Free(name, '|') && NoGroup(s, name)
    ensures var c1 := CreateAsked(c, name);
            && |c1.sent| == |c.sent| + 1
            && var o := Step(s, c1.sent[|c.sent|]);
            && o == Done(s.(groups := s.groups + [Group(name, c.login, [u], [Joined(s, c.login)])],
                            counter := NewId(s)),
                         [Letter(c.pipe, "create" + "|" + "OK" + "|" + name)])
            && var c2 := Handled(c1, o.letters[0].text);
            c2 == c.(mode := InGroupChat, chat := name, cursor := "0", sent := c1.sent, printed := c2.printed)
  {
    hide Step, Free, Split;
    Words();
    WordsAreFree();
    WordsDiffer();
    CommandsDiffer();
    OpeningLinesSent(c, name);
    CreateLine(s, c.pipe, u, name);
    OkRead(c, "create", "OK", name);
  }

  // Joining a group that exists leads into it, and so does opening a private chat with another user; from
  // a refusal the client comes back where it was, with an error shown.
  lemma JoinAnswered(s: State, c: ClientState, u: nat, name: string)
    requires c.mode != NotLogin && Tidy(c) && FirstUser(s, c.login, u) && name != ""
    ensures var c1 := OpeningAsked(c, JOIN, name);
            && |c1.sent| == |c.sent| + 1 && Step(s, c1.sent[|c.sent|]).Done?
            && var o := Step(s, c1.sent[|c.sent|]);
            && |o.letters| == 1 && o.letters[0].pipe == c.pipe
            && var c2 := Handled(c1, o.letters[0].text);
            if NoGroup(s, name) then
              o.state == s && c2 == c1.(printed := c.printed + [Problem("Error: " + ("chat " + name + " not found"))])
            else
              && (exists i: nat :: FirstGroup(o.state, name, i) && u in o.state.groups[i].users)
              && c2 == c1.(mode := InGroupChat, chat := name, cursor := "0", printed := c2.printed)
  {
    hide Step, Free, Split;
    Words();
    WordsAreFree();
    WordsDiffer();
    CommandsDiffer();
    OpeningLinesSent(c, name);
    var i := FindGroup(s.groups, name);
    if i == |s.groups| {
      JoinRefused(s, c.pipe, u, name);
      OkRead(c, "join", "ERROR", "chat " + name + " not found");
    } else {
      assert s.groups[i].name == name;
      JoinedIsMember(s, c.pipe, u, i);
      JoinLine(s, c.pipe, u, i);
      OkRead(c, "join", "OK", name);
      var t := Step(s, "join" + "|" + c.pipe + "|" + c.login + "|" + name).state;
      assert FirstGroup(t, name, i) && u in t.groups[i].users;
    }
  }

  lemma PrivateAnswered(s: State, c: ClientState, u: nat, v: nat)
    requires c.mode != NotLogin && Tidy(c) && FirstUser(s, c.login, u) && v < |s.users| && u != v
    requires FirstUser(s, s.users[v].login, v) && s.users[v].login != ""
    ensures var name := s.users[v].login;
            var c1 := OpeningAsked(c, PRIVATE_CHAT, name);
            && |c1.sent| == |c.sent| + 1 && Step(s, c1.sent[|c.sent|]).Done?
            && var o := Step(s, c1.sent[|c.sent|]);
            && |o.letters| == 1 && o.letters[0].pipe == c.pipe && (exists i: nat :: ChatOfTwo(o.state, i, u, v))
            && var c2 := Handled(c1, o.letters[0].text);
            c2 == c1.(mode := InPrivateChat, chat := name, cursor := "0", printed := c2.printed)
  {
    hide Step, Free, Split;
    var name := s.users[v].login;
    Words();
    WordsAreFree();
    WordsDiffer();
    CommandsDiffer();
    OpeningLinesSent(c, name);
    PrivateLine(s, c.pipe, u, v);
    OkRead(c, "private", "OK", name);
    var t := Step(s, "private" + "|" + c.pipe + "|" + c.login + "|" + name).state;
    if i :| 0 <= i < |s.privates| && ChatOfTwo(s, i, u, v) {
      assert ChatOfTwo(t, i, u, v);
    } else {
      assert ChatOfTwo(t, |s.privates|, u, v);
    }
  }

  // ---- Polling ----

  // The chat a client looks at: the group of that name, or its user's chat with the user of that name.
  ghost predicate LooksAt(s: State, c: ClientState, u: nat, p: Place) {
    if c.mode == InGroupChat then p.InGroup? && FirstGroup(s, c.chat, p.i)
    else p.InPrivate? && (exists v: nat :: v < |s.users| && s.users[v].login == c.chat && ChatOfTwo(s, p.i, u, v))
  }

  // A poll asks with the cursor, and is answered from that chat, wherever the client's posts may go.
  lemma PollServed(s: State, c: ClientState, u: nat, p: Place)
    requires Inv(s) && c.mode != NotLogin && Tidy(c) && FirstUser(s, c.login, u) && LooksAt(s, c, u, p)
    ensures PollText(c)
            == "get_msg" + "|" + c.pipe + "|" + c.login + "|" + (if c.mode == InGroupChat then "GROUP" else "PRIVATE")
               + "|" + c.chat + "|" + c.cursor
    ensures Step(s, PollText(c))
            == Done(s, [Letter(c.pipe, "get_msg" + "|" + "OK" + "|" + PollAnswer(Log(s, p), ParseId(c.cursor)))])
  {
    hide Step, Free, PollAnswer, Inv;
    Words();
    PostLine(GET_MSG, c.pipe, c.login, ChatKind(c), c.chat, c.cursor);
    if c.mode == InGroupChat {
      GroupPoll(s, c.pipe, u, p.i, c.cursor);
    } else {
      var v: nat :| v < |s.users| && s.users[v].login == c.chat && ChatOfTwo(s, p.i, u, v);
      PrivatePoll(s, c.pipe, u, v, p.i, c.cursor);
    }
  }

  // A client that opens a group and writes to it, each answer read: the group is its own alone, with the
  // word of welcome and then what was written in it.
  lemma CreateThenWrite(s: State, c: ClientState, u: nat, name: string, text: string)
    requires c.mode != NotLogin && Tidy(c) && FirstUser(s, c.login, u)
    requires 2 <= |name| <= 20 && Free(name, '|') && NoGroup(s, name) && Free(text, '|')
    ensures var c1 := CreateAsked(c, name);
            && |c1.sent| == |c.sent| + 1 && Step(s, c1.sent[|c.sent|]).Done?
            && var o := Step(s, c1.sent[|c.sent|]);
            && |o.letters| == 1
            && var c2 := Pushed(Handled(c1, o.letters[0].text), text);
            && |c2.sent| == |c.sent| + 2
            && Step(o.state, c2.sent[|c.sent| + 1]).Done?
            && Step(o.state, c2.sent[|c.sent| + 1]).state.groups
               == s.groups + [Group(name, c.login, [u],
                                    [Joined(s, c.login), Message(c.login, Cut(text), NewId(o.state))])]
  {
    hide Step, CreateAsked, Pushed, Handled, Free;
    CreateAnswered(s, c, u, name);
    var c1 := CreateAsked(c, name);
    var o := Step(s, c1.sent[|c.sent|]);
    var c2 := Handled(c1, o.letters[0].text);
    var i := |s.groups|;
    assert FirstGroup(o.state, name, i);
    PushServed(o.state, c2, text, u, InGroup(i));
    var welcome, m := Joined(s, c.login), Message(c.login, Cut(text), NewId(o.state));
    var g := Group(name, c.login, [u], [welcome]);
    assert [welcome] + [m] == [welcome, m];
    assert (s.groups + [g])[i := g.(messages := [welcome, m])] == s.groups + [g.(messages := [welcome, m])];
  }

  // ---- The list of chats ----

  // Asking for the chats shows them: nothing if there are none, else a text whose rows describe them.
  lemma ListShown(s: State, c: ClientState, u: nat) returns (ps: seq<Place>, text: string)
    requires c.mode != NotLogin && Tidy(c) && FirstUser(s, c.login, u) && Inv(s) && s.counter <= 0x8000_0000
    ensures forall p :: p in ps <==> L.Shows(s, u, p)
    ensures ps != [] && (forall i :: 0 <= i < |ps| ==> L.CleanRow(L.RowAt(s, u, ps[i]))) ==>
              && |L.RowsOf(Fields(text, '|'))| == |ps|
              && forall i :: 0 <= i < |ps| ==> L.Describes(s, u, L.RowsOf(Fields(text, '|'))[i], ps[i])
    ensures var c1 := Asked(c, CHATS, "");
            && |c1.sent| == |c.sent| + 1
            && var o := Step(s, c1.sent[|c.sent|]);
            && o.Done? && o.state == s && |o.letters| == 1 && o.letters[0].pipe == c.pipe
            && Handled(c1, o.letters[0].text)
               == if ps == [] then c1 else c1.(printed := c.printed + [ChatInfo(text)])
  {
    hide Step, Free, Split, Inv, Fields, L.Shows, L.RowsOf, L.CleanRow, L.RowAt, L.Describes;
    Words();
    WordsAreFree();
    WordsDiffer();
    CommandLine(CHATS, c.pipe, c.login, "");
    ps, text := L.ChatListArrives(s, c.pipe, u);
    OkRead(c, "chats", "OK", if ps == [] then "" else text);
    assert CHATS[0] == 'c' && CHATS[1] == 'h' && CREATE[1] == 'r';
  }
}
