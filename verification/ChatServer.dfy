// The chat server itself: the request handler and the commands, working on the server's lists.
module ChatServer {
  import opened StringParser
  import opened Decimal
  import opened ChatState
  import opened ChatList

  function Dispatch(s: State, pipe: string, u: nat, cmd: string, args: string): Outcome
    requires u < |s.users|
  {
    var a := Split(args, 3, SEP);
    if cmd == LOGOUT then Logout(s, u)
    else if cmd == PRIVATE_CHAT then OpenPrivate(s, pipe, u, args)
    else if cmd == CREATE then CreateGroup(s, pipe, u, args)
    else if cmd == JOIN then JoinGroup(s, pipe, u, args)
    else if cmd == PUSH_MSG then if |a| < 3 then Undefined else PutMsg(s, pipe, u, a[0], a[1], a[2])
    else if cmd == GET_MSG then if |a| < 3 then Undefined else GetMsg(s, pipe, u, a[0], a[1], a[2])
    else if cmd == CHATS then Chats(s, pipe, u)
    else Done(s, [])
  }

  // One request, taken apart and carried out.
  function Step(s: State, request: string): Outcome {
    var f := Split(request, 4, SEP);
    if |f| == 1 then Done(s, [])
    else if |f| == 2 then Undefined
    else
      var args := if |f| == 3 then "" else f[3];
      var u := FindUser(s.users, f[2]);
      if f[0] == LOGIN then Login(s, f[1], args)
      else if u == |s.users| then Done(s, [])
      else Dispatch(s, f[1], u, f[0], args)
  }

  class Server {
    var users: seq<User>
    var privates: seq<Private>
    var groups: seq<Group>
    var posts: seq<Message>
    var counter: nat
    var sent: seq<Letter>

    function View(): State
      reads this
    {
      State(users, privates, groups, posts, counter)
    }

    // The server did exactly this.
    twostate predicate Did(o: Outcome)
      reads this
    {
      o.Done? && View() == o.state && sent == old(sent) + o.letters
    }

    constructor ()
      ensures View() == EMPTY && sent == []
    {
      users, privates, groups, posts, counter, sent := [], [], [], [], 0, [];
    }

    method Respond(pipe: string, cmd: string, status: string, answer: string)
      modifies this`sent
      ensures sent == old(sent) + [Letter(pipe, Response(cmd, status, answer))]
    {
      var ans := "";
      if answer != "" {
        ans := [SEP];
      }
      ans := ans + answer;
      assert ans == if answer == "" then "" else [SEP] + answer;
      sent := sent + [Letter(pipe, cmd + [SEP] + status + ans)];
    }

    method FindUserByLogin(login: string) returns (i: nat)
      ensures i == FindUser(users, login)
    {
      i := 0;
      while i < |users| && users[i].login != login
        invariant i <= |users|
        invariant forall j :: 0 <= j < i ==> users[j].login != login
      {
        i := i + 1;
      }
    }

    method FindGroupByName(name: string) returns (i: nat)
      ensures i == FindGroup(groups, name)
    {
      i := 0;
      while i < |groups| && groups[i].name != name
        invariant i <= |groups|
        invariant forall j :: 0 <= j < i ==> groups[j].name != name
      {
        i := i + 1;
      }
    }

    method CmdLogin(pipe: string, login: string)
      modifies this
      ensures Did(Login(old(View()), pipe, login))
    {
      var answer, status := "", "";
      var i := FindUserByLogin(login);
      if i < |users| && users[i].authorized {
        assert answer + "user " == "user ";
        answer := answer + "user " + login + " already logged in";
        status := ERROR;
      } else if login == NONE_USER || login == SYSTEM {
        answer := "forbidden name";
        status := ERROR;
      } else {
        assert status + OK == OK;
        status := status + OK;
        if i == |users| {
          users := users + [User(login, true)];
        } else {
          users := users[i := users[i].(authorized := true)];
        }
      }
      Respond(pipe, LOGIN, status, answer);
    }

    method CmdLogout(u: nat)
      requires u < |users|
      modifies this
      ensures Did(Logout(old(View()), u))
    {
      users := users[u := users[u].(authorized := false)];
    }

    method CmdPrivate(pipe: string, u: nat, login: string)
      requires u < |users|
      modifies this
      ensures Did(OpenPrivate(old(View()), pipe, u, login))
    {
      var answer, status := "", "";
      if users[u].login == login {
        answer := "нельзя говорить с самим собой";
        status := ERROR;
        Respond(pipe, PRIVATE_CHAT, status, answer);
        return;
      }
      var v := FindUserByLogin(login);
      if v == |users| {
        assert answer + "user " == "user ";
        answer := answer + "user " + login + " not found";
        status := ERROR;
      } else {
        var i := 0;
        while i < |privates| && !Between(privates[i], u, v)
          invariant 0 <= i <= |privates|
          invariant forall j :: 0 <= j < i ==> !Between(privates[j], u, v)
        {
          i := i + 1;
        }
        assert i == FindPair(privates, u, v);
        if i == |privates| {
          privates := privates + [Private(u, v, [])];
        }
        assert answer + login == login;
        answer := answer + login;
        status := OK;
      }
      Respond(pipe, PRIVATE_CHAT, status, answer);
    }

    method NextId() returns (id: nat)
      modifies this`counter
      ensures id == counter == Next(old(counter))
    {
      counter := (counter + 1) % WORD;
      id := counter;
    }

    method CmdCreate(pipe: string, u: nat, name: string)
      requires u < |users|
      modifies this
      ensures Did(CreateGroup(old(View()), pipe, u, name))
    {
      var i := FindGroupByName(name);
      if i < |groups| {
        Respond(pipe, CREATE, ERROR, "chat " + name + " already exists");
      } else {
        var id := NextId();
        groups := groups + [Group(name, users[u].login, [u],
          [Message(SYSTEM, "User " + users[u].login + " joined the chat", id)])];
        Respond(pipe, CREATE, OK, name);
      }
    }

    method CmdJoin(pipe: string, u: nat, name: string)
      requires u < |users|
      modifies this
      ensures Did(JoinGroup(old(View()), pipe, u, name))
    {
      var i := FindGroupByName(name);
      if i == |groups| {
        Respond(pipe, JOIN, ERROR, "chat " + name + " not found");
      } else {
        if u !in groups[i].users {
          var id := NextId();
          var m := Message(SYSTEM, "User " + users[u].login + " joined the chat", id);
          groups := groups[i := groups[i].(users := groups[i].users + [u])];
          groups := groups[i := groups[i].(messages := groups[i].messages + [m])];
        }
        Respond(pipe, JOIN, OK, name);
      }
    }

    method FindReadPlace(u: nat, mode: string, name: string) returns (p: Place)
      ensures p == ReadPlace(View(), u, mode, name)
    {
      if mode == GROUP {
        var i := FindGroupByName(name);
        p := if i < |groups| then InGroup(i) else Missing("chat " + name + " not found");
      } else if mode == PRIVATE {
        var i := 0;
        while i < |privates| && !Named(users, privates[i], u, name)
          invariant 0 <= i <= |privates|
          invariant forall j :: 0 <= j < i ==> !Named(users, privates[j], u, name)
        {
          i := i + 1;
        }
        assert i == FindNamed(users, privates, u, name);
        p := if i < |privates| then InPrivate(i) else Missing("user " + name + " not found");
      } else {
        p := NoList;
      }
    }

    method FindWritePlace(u: nat, mode: string, name: string) returns (p: Place)
      ensures p == WritePlace(View(), u, mode, name)
    {
      if mode == GROUP {
        var i := FindGroupByName(name);
        p := if i < |groups| then InGroup(i) else Missing("chat " + name + " not found");
      } else if mode == PRIVATE {
        var i := 0;
        while i < |privates| && !Involves(privates[i], u)
          invariant 0 <= i <= |privates|
          invariant forall j :: 0 <= j < i ==> !Involves(privates[j], u)
        {
          i := i + 1;
        }
        assert i == FindOwn(privates, u);
        p := if i < |privates| then InPrivate(i) else Missing("user " + name + " not found");
      } else {
        p := NoList;
      }
    }

    // The loop of cmd_get_msg over one list of messages.
    method Collect(log: seq<Message>, id: nat) returns (answer: string, lid: nat)
      ensures answer == Encoded(Newer(log, id)) && lid == LastId(log, id)
    {
      hide Encoded, Newer, LastId;
      answer, lid := "", id;
      NothingYet(id);
      var i := 0;
      while i < |log|
        invariant 0 <= i <= |log|
        invariant answer == Encoded(Newer(log[..i], id)) && lid == LastId(log[..i], id)
      {
        OneFurther(log[..i], log[i], id);
        assert log[..i + 1] == log[..i] + [log[i]];
        if log[i].id > id {
          answer := answer + (log[i].from + [SEP] + log[i].text + [SEP]);
          lid := if log[i].id > lid then log[i].id else lid;
        }
        i := i + 1;
      }
      assert log[..i] == log;
    }

    // ok == false: the null pointer is read.
    method CmdGetMsg(pipe: string, u: nat, mode: string, name: string, last: string) returns (ok: bool)
      modifies this
      ensures var o := GetMsg(old(View()), pipe, u, mode, name, last); ok == o.Done? && (ok ==> Did(o))
    {
      var p := FindReadPlace(u, mode, name);
      if p.Missing? {
        Respond(pipe, GET_MSG, ERROR, p.what);
        return true;
      }
      if p.NoList? {
        return false;
      }
      var answer, lid := Collect(Log(View(), p), ParseId(last));
      if answer != "" {
        answer := answer[..|answer| - 1];
      }
      answer := ToString(lid) + [SEP] + answer;
      Respond(pipe, GET_MSG, OK, answer);
      return true;
    }

    method CmdPutMsg(pipe: string, u: nat, mode: string, name: string, text: string) returns (ok: bool)
      requires u < |users|
      modifies this
      ensures var o := PutMsg(old(View()), pipe, u, mode, name, text); ok == o.Done? && (ok ==> Did(o))
    {
      var p := FindWritePlace(u, mode, name);
      if p.Missing? {
        Respond(pipe, GET_MSG, ERROR, p.what);
        return true;
      }
      if p.NoList? {
        return false;
      }
      var id := NextId();
      var m := Message(users[u].login, text, id);
      posts := posts + [m];
      if p.InPrivate? {
        privates := privates[p.i := privates[p.i].(messages := privates[p.i].messages + [m])];
      } else {
        groups := groups[p.i := groups[p.i].(messages := groups[p.i].messages + [m])];
      }
      Respond(pipe, PUSH_MSG, OK, "");
      return true;
    }

    method CollectPrivate(u: nat) returns (vec: seq<Line>)
      ensures vec == PrivateLines(users, privates, u)
    {
      vec := [];
      var i := 0;
      while i < |privates|
        invariant 0 <= i <= |privates|
        invariant vec == PrivateLines(users, privates[..i], u)
      {
        assert privates[..i + 1][..i] == privates[..i];
        var c, other := privates[i], "";
        if c.user1 == u {
          other := LoginOf(users, c.user2);
        }
        if c.user2 == u {
          other := LoginOf(users, c.user1);
        }
        if other != "" && c.messages != [] {
          vec := vec + [LineFor(PRIVATE, other, c.messages)];
        }
        i := i + 1;
      }
      assert privates[..i] == privates;
    }

    method CollectGroups(u: nat) returns (vec: seq<Line>)
      ensures vec == GroupLines(groups, u)
    {
      vec := [];
      var i := 0;
      while i < |groups|
        invariant 0 <= i <= |groups|
        invariant vec == GroupLines(groups[..i], u)
      {
        assert groups[..i + 1][..i] == groups[..i];
        var g := groups[i];
        if u in g.users && g.messages != [] {
          vec := vec + [LineFor(GROUP, g.name, g.messages)];
        }
        i := i + 1;
      }
      assert groups[..i] == groups;
    }

    method Collected(vec: seq<Line>) returns (answer: string)
      ensures answer == Texts(vec)
    {
      answer := "";
      var i := 0;
      while i < |vec|
        invariant 0 <= i <= |vec|
        invariant answer == Texts(vec[..i])
      {
        assert vec[..i + 1][..i] == vec[..i];
        answer := answer + vec[i].text;
        i := i + 1;
      }
      assert vec[..i] == vec;
    }

    method CmdChats(pipe: string, u: nat)
      modifies this`sent
      ensures Did(Chats(old(View()), pipe, u))
    {
      hide Sort, Texts, PrivateLines, GroupLines, Response;
      var vec := CollectPrivate(u);
      var more := CollectGroups(u);
      vec := Sort(vec + more);
      var answer := Collected(vec);
      if answer != "" {
        answer := answer[..|answer| - 1];
      }
      Respond(pipe, CHATS, OK, answer);
    }

    method RequestHandler(request: string) returns (ok: bool)
      modifies this
      ensures var o := Step(old(View()), request); ok == o.Done? && (ok ==> Did(o))
    {
      hide Login, Logout, OpenPrivate, CreateGroup, JoinGroup, PutMsg, GetMsg, Chats, FindUser, Split;
      var f := StringParser.Parse(request, 4, [], SEP);
      if |f| == 1 {
        return true;
      }
      if |f| == 2 {
        return false;
      }
      var cmd, pipe, login := f[0], f[1], f[2];
      var args := if |f| == 3 then "" else f[3];
      var u := FindUserByLogin(login);
      ok := true;
      if cmd == LOGIN {
        CmdLogin(pipe, args);
        return;
      }
      if u == |users| {
        return;
      }
      if cmd == LOGOUT {
        CmdLogout(u);
      } else if cmd == PRIVATE_CHAT {
        CmdPrivate(pipe, u, args);
      } else if cmd == CREATE {
        CmdCreate(pipe, u, args);
      } else if cmd == JOIN {
        CmdJoin(pipe, u, args);
      } else if cmd == PUSH_MSG {
        var a := StringParser.Parse(args, 3, [], SEP);
        if |a| < 3 {
          return false;
        }
        ok := CmdPutMsg(pipe, u, a[0], a[1], a[2]);
      } else if cmd == GET_MSG {
        var a := StringParser.Parse(args, 3, [], SEP);
        if |a| < 3 {
          return false;
        }
        ok := CmdGetMsg(pipe, u, a[0], a[1], a[2]);
      } else if cmd == CHATS {
        CmdChats(pipe, u);
      }
    }
  }

  lemma {:induction false} NothingYet(id: nat)
    ensures Newer([], id) == [] && Encoded([]) == "" && LastId([], id) == id
  {
  }

  lemma {:induction false} EncodedGrows(ms: seq<Message>, m: Message)
    ensures Encoded(ms + [m]) == Encoded(ms) + (m.from + [SEP] + m.text + [SEP])
  {
    assert (ms + [m])[..|ms|] == ms;
  }

  lemma {:induction false} OneFurther(log: seq<Message>, m: Message, id: nat)
    ensures LastId(log + [m], id) == if m.id > id && m.id > LastId(log, id) then m.id else LastId(log, id)
    ensures Newer(log + [m], id) == Newer(log, id) + (if m.id > id then [m] else [])
    ensures Encoded(Newer(log + [m], id))
            == if m.id > id then Encoded(Newer(log, id)) + (m.from + [SEP] + m.text + [SEP])
               else Encoded(Newer(log, id))
  {
    assert (log + [m])[..|log|] == log;
    EncodedGrows(Newer(log, id), m);
    assert m.id <= id ==> Newer(log, id) + [] == Newer(log, id);
  }
}
