// A run of the server in which what is written to one user reaches another.
module ChatAddressing {
  import opened StringParser
  import opened ChatState
  import opened ChatServer
  import opened ChatInvariants
  import opened ChatWire

  function LoggingIn(pipe: string, name: string): string { RequestText(LOGIN, pipe, NONE_USER, name) }

  // Ann's requests.
  function AnnAsks(cmd: string, args: string): string { RequestText(cmd, "p", "ann", args) }

  // Ann, Bob and Cid log in, and Ann opens a chat with Bob, then one with Cid, and writes to Cid.
  function AnnWritesToCid(): seq<string> {
    [LoggingIn("p", "ann"), LoggingIn("q", "bob"), LoggingIn("r", "cid"), AnnAsks(PRIVATE_CHAT, "bob"),
     AnnAsks(PRIVATE_CHAT, "cid"), AnnAsks(PUSH_MSG, ArgsText(PRIVATE, "cid", "hi"))]
  }

  function Users(n: nat): seq<User> {
    [User("ann", true), User("bob", true), User("cid", true)][..if n < 3 then n else 3]
  }

  function Chats(n: nat): seq<Private> { [Private(0, 1, []), Private(0, 2, [])][..if n < 2 then n else 2] }

  function Talking(users: nat, chats: nat): State { State(Users(users), Chats(chats), [], [], 0) }

  lemma NamesDiffer()
    ensures "ann" != "bob" && "ann" != "cid" && "bob" != "cid"
    ensures forall name :: name in {"ann", "bob", "cid"} ==> name != NONE_USER && name != SYSTEM && Free(name, SEP)
    ensures Free("p", SEP) && Free("q", SEP) && Free("r", SEP) && Free(NONE_USER, SEP)
  {
    assert "ann"[0] == 'a' && "bob"[0] == 'b' && "cid"[0] == 'c' && |NONE_USER| == 6 && |SYSTEM| == 6;
  }

  lemma LoginArrives(s: State, pipe: string, name: string)
    requires Free(pipe, SEP)
    ensures Step(s, LoggingIn(pipe, name)) == Login(s, pipe, name)
  {
    hide Split, Free, Login;
    NamesDiffer();
    WordsAreFree();
    RequestParses(LOGIN, pipe, NONE_USER, name);
    if name == "" {
      assert Split(LoggingIn(pipe, name), 4, SEP) == [LOGIN, pipe, NONE_USER];
    }
  }

  lemma NobodyYet()
    ensures Talking(0, 0) == EMPTY
  {
  }

  lemma AnnLogsIn()
    ensures Step(Talking(0, 0), LoggingIn("p", "ann")).Done?
    ensures Step(Talking(0, 0), LoggingIn("p", "ann")).state == Talking(1, 0)
  {
    hide Step;
    NamesDiffer();
    LoginArrives(Talking(0, 0), "p", "ann");
    assert Users(1) == [User("ann", true)];
  }

  lemma BobLogsIn()
    ensures Step(Talking(1, 0), LoggingIn("q", "bob")).Done?
    ensures Step(Talking(1, 0), LoggingIn("q", "bob")).state == Talking(2, 0)
  {
    hide Step;
    NamesDiffer();
    LoginArrives(Talking(1, 0), "q", "bob");
    assert Users(1)[0].login == "ann" && FindUser(Users(1), "bob") == 1;
    assert Users(1) + [User("bob", true)] == Users(2);
  }

  lemma CidLogsIn()
    ensures Step(Talking(2, 0), LoggingIn("r", "cid")).Done?
    ensures Step(Talking(2, 0), LoggingIn("r", "cid")).state == Talking(3, 0)
  {
    hide Step;
    NamesDiffer();
    LoginArrives(Talking(2, 0), "r", "cid");
    assert Users(2)[0].login == "ann" && Users(2)[1].login == "bob" && FindUser(Users(2), "cid") == 2;
    assert Users(2) + [User("cid", true)] == Users(3);
  }

  lemma ThreeLogIn()
    ensures Runs(EMPTY, AnnWritesToCid()[..3]) && After(EMPTY, AnnWritesToCid()[..3]) == Talking(3, 0)
  {
    hide Step, Talking, Users;
    AnnLogsIn();
    BobLogsIn();
    CidLogsIn();
    NobodyYet();
    RunsOne(Talking(0, 0), LoggingIn("p", "ann"));
    RunsOne(Talking(1, 0), LoggingIn("q", "bob"));
    RunsOne(Talking(2, 0), LoggingIn("r", "cid"));
    RunsOn(EMPTY, [LoggingIn("p", "ann")], [LoggingIn("q", "bob")]);
    RunsOn(EMPTY, [LoggingIn("p", "ann")] + [LoggingIn("q", "bob")], [LoggingIn("r", "cid")]);
    assert AnnWritesToCid()[..3] == [LoggingIn("p", "ann")] + [LoggingIn("q", "bob")] + [LoggingIn("r", "cid")];
  }

  lemma AnnIsFirst(s: State)
    requires s.users == Users(3)
    ensures FindUser(s.users, "ann") == 0 && FindUser(s.users, "bob") == 1 && FindUser(s.users, "cid") == 2
  {
    NamesDiffer();
    assert s.users[0].login == "ann" && s.users[1].login == "bob" && s.users[2].login == "cid";
  }

  lemma PrivateArrives(s: State, name: string)
    requires s.users == Users(3)
    ensures Step(s, AnnAsks(PRIVATE_CHAT, name)) == OpenPrivate(s, "p", 0, name)
  {
    hide Split, Free, OpenPrivate, FindUser;
    NamesDiffer();
    WordsAreFree();
    AnnIsFirst(s);
    RequestParses(PRIVATE_CHAT, "p", "ann", name);
    assert |LOGIN| == 5 && |LOGOUT| == 6 && |PRIVATE_CHAT| == 7;
  }

  lemma ChatWithBob()
    ensures Step(Talking(3, 0), AnnAsks(PRIVATE_CHAT, "bob")).Done?
    ensures Step(Talking(3, 0), AnnAsks(PRIVATE_CHAT, "bob")).state == Talking(3, 1)
  {
    hide Step, FindUser;
    NamesDiffer();
    AnnIsFirst(Talking(3, 0));
    PrivateArrives(Talking(3, 0), "bob");
    assert Chats(1) == [Private(0, 1, [])];
  }

  lemma ChatWithCid()
    ensures Step(Talking(3, 1), AnnAsks(PRIVATE_CHAT, "cid")).Done?
    ensures Step(Talking(3, 1), AnnAsks(PRIVATE_CHAT, "cid")).state == Talking(3, 2)
  {
    hide Step, FindUser;
    NamesDiffer();
    AnnIsFirst(Talking(3, 1));
    PrivateArrives(Talking(3, 1), "cid");
    assert Chats(1) == [Private(0, 1, [])] && FindPair(Chats(1), 0, 2) == 1;
    assert Chats(1) + [Private(0, 2, [])] == Chats(2);
  }

  lemma TwoChatsOpen()
    ensures Runs(Talking(3, 0), AnnWritesToCid()[3..5])
    ensures After(Talking(3, 0), AnnWritesToCid()[3..5]) == Talking(3, 2)
  {
    hide Step, Talking;
    var s0, s1 := Talking(3, 0), Talking(3, 1);
    ChatWithBob();
    ChatWithCid();
    RunsOne(s0, AnnAsks(PRIVATE_CHAT, "bob"));
    RunsOne(s1, AnnAsks(PRIVATE_CHAT, "cid"));
    RunsOn(s0, [AnnAsks(PRIVATE_CHAT, "bob")], [AnnAsks(PRIVATE_CHAT, "cid")]);
    assert AnnWritesToCid()[3..5] == [AnnAsks(PRIVATE_CHAT, "bob")] + [AnnAsks(PRIVATE_CHAT, "cid")];
  }

  lemma PostArrivesAtBob()
    ensures var s, m := Talking(3, 2), Message("ann", "hi", 1);
            && Runs(s, AnnWritesToCid()[5..])
            && After(s, AnnWritesToCid()[5..])
               == State(Users(3), [Private(0, 1, [m]), Private(0, 2, [])], [], [m], 1)
  {
    hide Step, FindUser, Split, Free;
    NamesDiffer();
    WordsAreFree();
    WordsDiffer();
    var s := Talking(3, 2);
    AnnIsFirst(s);
    PostArrives(s, "p", "ann", PRIVATE, "cid", "hi");
    assert s.privates == [Private(0, 1, []), Private(0, 2, [])];
    assert WritePlace(s, 0, PRIVATE, "cid") == InPrivate(0);
    var m := Message("ann", "hi", 1);
    assert ChatState.Next(0) == 1 && s.users[0].login == "ann" && [] + [m] == [m];
    assert Posted(s, InPrivate(0), m).privates == [Private(0, 1, [m]), Private(0, 2, [])];
    assert Step(s, AnnAsks(PUSH_MSG, ArgsText(PRIVATE, "cid", "hi"))).state
        == State(Users(3), [Private(0, 1, [m]), Private(0, 2, [])], [], [m], 1);
    RunsOne(s, AnnAsks(PUSH_MSG, ArgsText(PRIVATE, "cid", "hi")));
    assert AnnWritesToCid()[5..] == [AnnAsks(PUSH_MSG, ArgsText(PRIVATE, "cid", "hi"))];
  }

  // Ann talks to Bob and then to Cid; what she writes to Cid, Bob gets, and Cid does not.
  lemma PostGoesAstray()
    ensures Runs(EMPTY, AnnWritesToCid())
    ensures var t := After(EMPTY, AnnWritesToCid());
            && FindUser(t.users, "ann") == 0 && FindUser(t.users, "bob") == 1 && FindUser(t.users, "cid") == 2
            && Log(t, ReadPlace(t, 1, PRIVATE, "ann")) == [Message("ann", "hi", 1)]
            && Log(t, ReadPlace(t, 2, PRIVATE, "ann")) == []
            && Log(t, ReadPlace(t, 0, PRIVATE, "bob")) == [Message("ann", "hi", 1)]
            && Log(t, ReadPlace(t, 0, PRIVATE, "cid")) == []
  {
    hide Step, FindUser, Users;
    var r := AnnWritesToCid();
    ThreeLogIn();
    TwoChatsOpen();
    PostArrivesAtBob();
    RunsOn(EMPTY, r[..3], r[3..5]);
    RunsOn(EMPTY, r[..3] + r[3..5], r[5..]);
    assert r == r[..3] + r[3..5] + r[5..];
    var t := After(EMPTY, r);
    AnnIsFirst(t);
    ChatsRead(t);
  }

  lemma ChatsRead(t: State)
    requires t.users == Users(3) && |t.privates| == 2
    requires t.privates[0].user1 == 0 == t.privates[1].user1 && t.privates[0].user2 == 1 && t.privates[1].user2 == 2
    ensures ReadPlace(t, 1, PRIVATE, "ann") == ReadPlace(t, 0, PRIVATE, "bob") == InPrivate(0)
    ensures ReadPlace(t, 2, PRIVATE, "ann") == ReadPlace(t, 0, PRIVATE, "cid") == InPrivate(1)
  {
    NamesDiffer();
    WordsDiffer();
    assert t.users[0].login == "ann" && t.users[1].login == "bob" && t.users[2].login == "cid";
    assert Named(t.users, t.privates[0], 0, "bob") && Named(t.users, t.privates[0], 1, "ann");
    assert !Named(t.users, t.privates[0], 0, "cid") && Named(t.users, t.privates[1], 0, "cid");
    assert !Named(t.users, t.privates[0], 2, "ann") && Named(t.users, t.privates[1], 2, "ann");
  }
}
