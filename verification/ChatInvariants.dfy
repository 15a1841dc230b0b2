// What every request leaves true of the server, and what it never takes back.
module ChatInvariants {
  import opened Decimal
  import opened ChatState
  import opened ChatList
  import opened ChatServer
  import StringParser

  // ---- The invariant ----

  ghost predicate UsersOk(us: seq<User>) {
    && (forall i, j :: 0 <= i < j < |us| ==> us[i].login != us[j].login)
    && (forall i :: 0 <= i < |us| ==> us[i].login != NONE_USER && us[i].login != SYSTEM)
  }

  ghost predicate PairsOk(us: seq<User>, ps: seq<Private>) {
    && (forall i :: 0 <= i < |ps| ==> ps[i].user1 != ps[i].user2 && ps[i].user1 < |us| && ps[i].user2 < |us|)
    && (forall i, j :: 0 <= i < j < |ps| ==> !Between(ps[j], ps[i].user1, ps[i].user2))
  }

  ghost predicate MembersOk(us: seq<User>, g: Group) {
    && (forall i, j :: 0 <= i < j < |g.users| ==> g.users[i] != g.users[j])
    && (forall i :: 0 <= i < |g.users| ==> g.users[i] < |us|)
    && (exists i :: 0 <= i < |g.users| && us[g.users[i]].login == g.owner)
  }

  ghost predicate GroupsOk(us: seq<User>, gs: seq<Group>) {
    && (forall i, j :: 0 <= i < j < |gs| ==> gs[i].name != gs[j].name)
    && (forall i :: 0 <= i < |gs| ==> MembersOk(us, gs[i]))
  }

  ghost predicate Rising(log: seq<Message>, top: nat) {
    && (forall i, j :: 0 <= i < j < |log| ==> log[i].id < log[j].id)
    && (forall i :: 0 <= i < |log| ==> 0 < log[i].id <= top)
  }

  ghost predicate Disjoint(a: seq<Message>, b: seq<Message>) {
    forall i, j :: 0 <= i < |a| && 0 <= j < |b| ==> a[i].id != b[j].id
  }

  ghost predicate LogsOk(s: State) {
    && (forall p: Place {:trigger Log(s, p)} :: Rising(Log(s, p), s.counter))
    && (forall p: Place, q: Place {:trigger Log(s, p), Log(s, q)} :: p != q ==> Disjoint(Log(s, p), Log(s, q)))
    && Rising(s.posts, s.counter)
  }

  ghost predicate Inv(s: State) {
    UsersOk(s.users) && PairsOk(s.users, s.privates) && GroupsOk(s.users, s.groups) && LogsOk(s) && s.counter < WORD
  }

  // ---- What is never taken back ----

  ghost predicate SameLogins(a: seq<User>, b: seq<User>) {
    |a| <= |b| && forall i :: 0 <= i < |a| ==> b[i].login == a[i].login
  }

  ghost predicate SamePairs(a: seq<Private>, b: seq<Private>) {
    |a| <= |b| && forall i :: 0 <= i < |a| ==> b[i].user1 == a[i].user1 && b[i].user2 == a[i].user2
  }

  ghost predicate SameNames(a: seq<Group>, b: seq<Group>) {
    && |a| <= |b|
    && forall i :: 0 <= i < |a| ==>
         b[i].name == a[i].name && b[i].owner == a[i].owner && a[i].users <= b[i].users
  }

  // The old messages come first, and the new ones are newer than anything sent before.
  ghost predicate Continued(a: seq<Message>, b: seq<Message>, top: nat) {
    a <= b && forall i :: |a| <= i < |b| ==> b[i].id > top
  }

  ghost predicate Grows(s: State, t: State) {
    && SameLogins(s.users, t.users) && SamePairs(s.privates, t.privates) && SameNames(s.groups, t.groups)
    && s.counter <= t.counter && s.posts <= t.posts
    && (forall p: Place {:trigger Log(t, p)} :: Continued(Log(s, p), Log(t, p), s.counter))
  }

  // ---- A request adds at most one message, to one chat ----

  ghost predicate NoMessage(s: State, t: State) {
    && t.counter == s.counter && t.posts == s.posts
    && (forall p: Place {:trigger Log(t, p)} :: Log(t, p) == Log(s, p))
  }

  ghost predicate OneMessage(s: State, t: State, at: Place, m: Message) {
    && t.counter == s.counter + 1 == m.id
    && (t.posts == s.posts || t.posts == s.posts + [m])
    && (forall p: Place {:trigger Log(t, p)} :: Log(t, p) == if p == at then Log(s, p) + [m] else Log(s, p))
  }

  ghost predicate AtMostOneMessage(s: State, t: State) {
    NoMessage(s, t) || exists at: Place, m: Message :: OneMessage(s, t, at, m)
  }

  lemma LogsKept(s: State, t: State)
    requires LogsOk(s) && AtMostOneMessage(s, t)
    ensures LogsOk(t)
    ensures s.counter <= t.counter <= s.counter + 1 && s.posts <= t.posts
    ensures forall p: Place {:trigger Log(t, p)} :: Continued(Log(s, p), Log(t, p), s.counter)
  {
    hide Log;
  }

  // The parts of the invariant, and of growth, that are not about messages.
  ghost predicate FrameOk(s: State, t: State) {
    && UsersOk(t.users) && PairsOk(t.users, t.privates) && GroupsOk(t.users, t.groups)
    && SameLogins(s.users, t.users) && SamePairs(s.privates, t.privates) && SameNames(s.groups, t.groups)
  }

  ghost predicate Kept(s: State, t: State) { Inv(t) && Grows(s, t) && t.counter <= s.counter + 1 }

  lemma Together(s: State, t: State)
    requires Inv(s) && FrameOk(s, t) && AtMostOneMessage(s, t) && t.counter < WORD
    ensures Kept(s, t)
  {
    hide UsersOk, PairsOk, GroupsOk, LogsOk, SameLogins, SamePairs, SameNames, AtMostOneMessage, Continued, Log;
    LogsKept(s, t);
  }

  lemma MembersStay(us: seq<User>, us': seq<User>, gs: seq<Group>)
    requires GroupsOk(us, gs) && SameLogins(us, us')
    ensures GroupsOk(us', gs)
  {
    forall i | 0 <= i < |gs|
      ensures MembersOk(us', gs[i])
    {
      assert MembersOk(us, gs[i]);
      var k :| 0 <= k < |gs[i].users| && us[gs[i].users[k]].login == gs[i].owner;
      assert us'[gs[i].users[k]].login == gs[i].owner;
    }
  }

  // ---- Command by command ----

  lemma LoginKeeps(s: State, pipe: string, login: string)
    requires Inv(s)
    ensures Kept(s, Login(s, pipe, login).state)
  {
    hide LogsOk, GroupsOk;
    var t := Login(s, pipe, login).state;
    assert SameLogins(s.users, t.users);
    MembersStay(s.users, t.users, s.groups);
    assert UsersOk(t.users);
    assert NoMessage(s, t);
    Together(s, t);
  }

  lemma LogoutKeeps(s: State, u: nat)
    requires Inv(s) && u < |s.users|
    ensures Kept(s, Logout(s, u).state)
  {
    hide LogsOk, GroupsOk;
    var t := Logout(s, u).state;
    assert SameLogins(s.users, t.users);
    MembersStay(s.users, t.users, s.groups);
    assert UsersOk(t.users);
    assert NoMessage(s, t);
    Together(s, t);
  }

  lemma OpenPrivateKeeps(s: State, pipe: string, u: nat, login: string)
    requires Inv(s) && u < |s.users|
    ensures Kept(s, OpenPrivate(s, pipe, u, login).state)
  {
    hide LogsOk, GroupsOk, UsersOk;
    var t := OpenPrivate(s, pipe, u, login).state;
    assert NoMessage(s, t);
    assert PairsOk(t.users, t.privates);
    Together(s, t);
  }

  lemma {:induction false} CreateGroupKeeps(s: State, pipe: string, u: nat, name: string)
    requires Inv(s) && u < |s.users| && (s.counter + 1 < WORD || FindGroup(s.groups, name) < |s.groups|)
    ensures Kept(s, CreateGroup(s, pipe, u, name).state)
  {
    hide LogsOk, PairsOk, UsersOk;
    var t := CreateGroup(s, pipe, u, name).state;
    if FindGroup(s.groups, name) == |s.groups| {
      assert OneMessage(s, t, InGroup(|s.groups|), Welcome(s, u));
      var g := t.groups[|s.groups|];
      assert g.users[0] == u && s.users[u].login == g.owner;
      assert MembersOk(t.users, g);
      assert FrameOk(s, t);
    } else {
      assert NoMessage(s, t);
    }
    Together(s, t);
  }

  lemma MembersGrow(us: seq<User>, g: Group, u: nat, m: Message)
    requires MembersOk(us, g) && u < |us| && u !in g.users
    ensures MembersOk(us, Entered(g, u, m))
  {
    var g' := Entered(g, u, m);
    var k :| 0 <= k < |g.users| && us[g.users[k]].login == g.owner;
    assert g'.users[k] == g.users[k];
    assert forall i :: 0 <= i < |g.users| ==> g.users[i] in g.users;
  }

  // A newcomer to a group that exists.
  predicate Enters(s: State, u: nat, name: string) {
    var i := FindGroup(s.groups, name);
    i < |s.groups| && u !in s.groups[i].users
  }

  lemma JoinGroupKeeps(s: State, pipe: string, u: nat, name: string)
    requires Inv(s) && u < |s.users| && (s.counter + 1 < WORD || !Enters(s, u, name))
    ensures Kept(s, JoinGroup(s, pipe, u, name).state)
  {
    hide LogsOk, PairsOk, UsersOk, MembersOk;
    var t := JoinGroup(s, pipe, u, name).state;
    var i := FindGroup(s.groups, name);
    if i < |s.groups| && u !in s.groups[i].users {
      assert OneMessage(s, t, InGroup(i), Welcome(s, u));
      MembersGrow(s.users, s.groups[i], u, Welcome(s, u));
      assert FrameOk(s, t);
    } else {
      assert NoMessage(s, t);
    }
    Together(s, t);
  }

  lemma PostedFrame(s: State, p: Place, m: Message)
    requires Inv(s)
    ensures FrameOk(s, Posted(s, p, m))
  {
    hide LogsOk, UsersOk;
    var t := Posted(s, p, m);
    forall i | 0 <= i < |t.groups|
      ensures MembersOk(t.users, t.groups[i])
    {
      assert MembersOk(s.users, s.groups[i]);
      assert t.groups[i].users == s.groups[i].users && t.groups[i].owner == s.groups[i].owner;
    }
  }

  lemma PostedLog(s: State, at: Place, m: Message, p: Place)
    requires at.InPrivate? ==> at.i < |s.privates|
    requires at.InGroup? ==> at.i < |s.groups|
    requires at.InPrivate? || at.InGroup?
    ensures Log(Posted(s, at, m), p) == if p == at then Log(s, p) + [m] else Log(s, p)
  {
  }

  // A list of messages.
  predicate IsList(p: Place) { p.InPrivate? || p.InGroup? }

  lemma PutMsgKeeps(s: State, pipe: string, u: nat, mode: string, name: string, text: string)
    requires Inv(s) && u < |s.users| && (s.counter + 1 < WORD || !IsList(WritePlace(s, u, mode, name)))
    ensures var o := PutMsg(s, pipe, u, mode, name, text); o.Done? ==> Kept(s, o.state)
  {
    hide Inv, UsersOk, PairsOk, GroupsOk, SameLogins, SamePairs, SameNames, Kept;
    var o, p := PutMsg(s, pipe, u, mode, name, text), WritePlace(s, u, mode, name);
    if p.InPrivate? || p.InGroup? {
      var m := Message(s.users[u].login, text, Next(s.counter));
      var t := Posted(s, p, m);
      PostedFrame(s, p, m);
      hide Posted;
      assert o.state == t.(posts := s.posts + [m], counter := s.counter + 1);
      forall q: Place
        ensures Log(o.state, q) == if q == p then Log(s, q) + [m] else Log(s, q)
      {
        PostedLog(s, p, m, q);
        LogOnlyChats(t, o.state, q);
      }
      hide Log, WritePlace;
      assert OneMessage(s, o.state, p, m);
      Together(s, o.state);
    } else if p.Missing? {
      ReadingKeeps(s);
    }
  }

  lemma LogOnlyChats(s: State, t: State, p: Place)
    requires s.privates == t.privates && s.groups == t.groups
    ensures Log(s, p) == Log(t, p)
  {
  }

  lemma ReadingKeeps(s: State)
    requires Inv(s)
    ensures Kept(s, s)
  {
    hide Inv;
  }

  // ---- Every request ----

  // Whether a request will put a message into a chat, as can be told before it is carried out.
  predicate Adds(s: State, u: nat, cmd: string, args: string) {
    var a := StringParser.Split(args, 3, SEP);
    if cmd == CREATE then FindGroup(s.groups, args) == |s.groups|
    else if cmd == JOIN then Enters(s, u, args)
    else cmd == PUSH_MSG && |a| == 3 && IsList(WritePlace(s, u, a[0], a[1]))
  }

  predicate AddsMessage(s: State, request: string) {
    var f := StringParser.Split(request, 4, SEP);
    |f| >= 3 &&
    var u := FindUser(s.users, f[2]);
    f[0] != LOGIN && u < |s.users| && Adds(s, u, f[0], if |f| == 3 then "" else f[3])
  }

  lemma {:induction false} ThreeAtMost(args: string)
    ensures |StringParser.Split(args, 3, SEP)| <= 3
  {
    StringParser.SplitCount(args, 3, SEP);
  }

  lemma CommandsDiffer()
    ensures CREATE != LOGOUT && CREATE != PRIVATE_CHAT && JOIN != LOGOUT && JOIN != PRIVATE_CHAT && JOIN != CREATE
    ensures PUSH_MSG != LOGOUT && PUSH_MSG != PRIVATE_CHAT && PUSH_MSG != CREATE && PUSH_MSG != JOIN
  {
    assert |CREATE| == 6 && |LOGOUT| == 6 && CREATE[0] == 'c' && LOGOUT[0] == 'l' && |JOIN| == 4 && |PRIVATE_CHAT| == 7
           && |PUSH_MSG| == 8;
  }

  // While a request adds no message, or the 64-bit message counter is not about to wrap around, a
  // request that the server survives keeps the invariant and takes nothing back.
  lemma StepKeeps(s: State, request: string)
    requires Inv(s) && (s.counter + 1 < WORD || !AddsMessage(s, request)) && Step(s, request).Done?
    ensures Kept(s, Step(s, request).state)
  {
    hide Inv, Kept, Login, Dispatch, FindUser, Adds;
    ReadingKeeps(s);
    var f := StringParser.Split(request, 4, SEP);
    if |f| >= 3 {
      var args := if |f| == 3 then "" else f[3];
      var u := FindUser(s.users, f[2]);
      if f[0] == LOGIN {
        LoginKeeps(s, f[1], args);
      } else if u < |s.users| {
        DispatchKeeps(s, f[1], u, f[0], args);
      }
    }
  }

  lemma DispatchKeeps(s: State, pipe: string, u: nat, cmd: string, args: string)
    requires Inv(s) && u < |s.users| && (s.counter + 1 < WORD || !Adds(s, u, cmd, args))
    requires Dispatch(s, pipe, u, cmd, args).Done?
    ensures Kept(s, Dispatch(s, pipe, u, cmd, args).state)
  {
    hide Inv, Kept, Login, Logout, OpenPrivate, CreateGroup, JoinGroup, PutMsg, Enters, IsList, WritePlace, FindGroup;
    ReadingKeeps(s);
    CommandsDiffer();
    ThreeAtMost(args);
    LogoutKeeps(s, u);
    OpenPrivateKeeps(s, pipe, u, args);
    if cmd == CREATE {
      CreateGroupKeeps(s, pipe, u, args);
    } else if cmd == JOIN {
      JoinGroupKeeps(s, pipe, u, args);
    } else if cmd == PUSH_MSG {
      var a := StringParser.Split(args, 3, SEP);
      if |a| >= 3 {
        PutMsgKeeps(s, pipe, u, a[0], a[1], a[2]);
      }
    }
  }

  // ---- Where the counter wraps around ----

  lemma ZeroBreaks(t: State, p: Place, i: nat)
    requires i < |Log(t, p)| && Log(t, p)[i].id == 0
    ensures !Inv(t)
  {
    hide Log, UsersOk, PairsOk, GroupsOk;
    assert LogsOk(t) ==> Rising(Log(t, p), t.counter);
  }

  lemma {:induction false} CreateWraps(s: State, pipe: string, u: nat, name: string)
    requires u < |s.users| && s.counter + 1 == WORD && FindGroup(s.groups, name) == |s.groups|
    ensures !Inv(CreateGroup(s, pipe, u, name).state)
  {
    hide Inv;
    ZeroBreaks(CreateGroup(s, pipe, u, name).state, InGroup(|s.groups|), 0);
  }

  lemma JoinWraps(s: State, pipe: string, u: nat, name: string)
    requires u < |s.users| && s.counter + 1 == WORD && Enters(s, u, name)
    ensures !Inv(JoinGroup(s, pipe, u, name).state)
  {
    hide Inv;
    var i := FindGroup(s.groups, name);
    ZeroBreaks(JoinGroup(s, pipe, u, name).state, InGroup(i), |s.groups[i].messages|);
  }

  lemma PostWraps(s: State, pipe: string, u: nat, mode: string, name: string, text: string)
    requires u < |s.users| && s.counter + 1 == WORD && IsList(WritePlace(s, u, mode, name))
    ensures PutMsg(s, pipe, u, mode, name, text).Done? && !Inv(PutMsg(s, pipe, u, mode, name, text).state)
  {
    hide Inv;
    var p := WritePlace(s, u, mode, name);
    ZeroBreaks(PutMsg(s, pipe, u, mode, name, text).state, p, |Log(s, p)|);
  }

  lemma DispatchWraps(s: State, pipe: string, u: nat, cmd: string, args: string)
    requires u < |s.users| && s.counter + 1 == WORD && Adds(s, u, cmd, args)
    requires Dispatch(s, pipe, u, cmd, args).Done?
    ensures !Inv(Dispatch(s, pipe, u, cmd, args).state)
  {
    hide Inv, Logout, OpenPrivate, CreateGroup, JoinGroup, PutMsg, Enters, IsList, WritePlace, FindGroup;
    CommandsDiffer();
    if cmd == CREATE {
      CreateWraps(s, pipe, u, args);
    } else if cmd == JOIN {
      JoinWraps(s, pipe, u, args);
    } else {
      var a := StringParser.Split(args, 3, SEP);
      PostWraps(s, pipe, u, a[0], a[1], a[2]);
    }
  }

  // A request that the server survives keeps the invariant exactly when the counter has a number left
  // or the request needs none.
  lemma StepKeepsExactly(s: State, request: string)
    requires Inv(s) && Step(s, request).Done?
    ensures Inv(Step(s, request).state) <==> (s.counter + 1 < WORD || !AddsMessage(s, request))
  {
    CounterInWord(s);
    if s.counter + 1 < WORD || !AddsMessage(s, request) {
      hide Inv, Step, AddsMessage;
      StepKeeps(s, request);
    } else {
      hide Inv, Dispatch, Adds, FindUser;
      var f := StringParser.Split(request, 4, SEP);
      DispatchWraps(s, f[1], FindUser(s.users, f[2]), f[0], if |f| == 3 then "" else f[3]);
    }
  }

  lemma CounterInWord(s: State)
    requires Inv(s)
    ensures s.counter < WORD
  {
  }

  // ---- Whole runs ----

  predicate Runs(s: State, requests: seq<string>)
    decreases |requests|
  {
    requests == [] || (Step(s, requests[0]).Done? && Runs(Step(s, requests[0]).state, requests[1..]))
  }

  function After(s: State, requests: seq<string>): State
    requires Runs(s, requests)
    decreases |requests|
  {
    if requests == [] then s else After(Step(s, requests[0]).state, requests[1..])
  }

  lemma {:induction false} RunsOn(s: State, a: seq<string>, b: seq<string>)
    requires Runs(s, a) && Runs(After(s, a), b)
    ensures Runs(s, a + b) && After(s, a + b) == After(After(s, a), b)
    decreases |a|
  {
    hide Step;
    if a == [] {
      assert a + b == b;
    } else {
      assert (a + b)[1..] == a[1..] + b;
      RunsOn(Step(s, a[0]).state, a[1..], b);
    }
  }

  lemma {:induction false} RunsOne(s: State, request: string)
    requires Step(s, request).Done?
    ensures Runs(s, [request]) && After(s, [request]) == Step(s, request).state
  {
    hide Step;
    assert [request][1..] == [];
  }

  lemma GrowsOn(s: State, t: State, r: State)
    requires Grows(s, t) && Grows(t, r)
    ensures Grows(s, r)
  {
    assert SameNames(s.groups, r.groups) by {
      forall i | 0 <= i < |s.groups|
        ensures r.groups[i].name == s.groups[i].name && r.groups[i].owner == s.groups[i].owner
                && s.groups[i].users <= r.groups[i].users
      {
        assert s.groups[i].users <= t.groups[i].users <= r.groups[i].users;
      }
    }
    forall p: Place
      ensures Continued(Log(s, p), Log(r, p), s.counter)
    {
      assert Continued(Log(s, p), Log(t, p), s.counter) && Continued(Log(t, p), Log(r, p), t.counter);
    }
  }

  // Fewer than 2^64 requests never wrap the counter around.
  lemma {:induction false} RunKeeps(s: State, requests: seq<string>)
    requires Inv(s) && Runs(s, requests) && s.counter + |requests| < WORD
    ensures Inv(After(s, requests)) && Grows(s, After(s, requests))
    ensures After(s, requests).counter <= s.counter + |requests|
    decreases |requests|
  {
    hide Inv, Grows, Step;
    ReadingKeeps(s);
    if requests != [] {
      var t := Step(s, requests[0]).state;
      StepKeeps(s, requests[0]);
      RunKeeps(t, requests[1..]);
      GrowsOn(s, t, After(t, requests[1..]));
    }
  }

  lemma EmptyOk()
    ensures Inv(EMPTY)
  {
  }

  // So every state that fewer than 2^64 requests lead to from the start has it.
  lemma {:induction false} EveryRunKeeps(requests: seq<string>)
    requires Runs(EMPTY, requests) && |requests| < WORD
    ensures Inv(After(EMPTY, requests)) && After(EMPTY, requests).counter <= |requests|
  {
    hide Inv;
    EmptyOk();
    RunKeeps(EMPTY, requests);
  }

  // ---- Where a private post goes ----

  // It fares as it should (it reaches the chat with the named user, or is refused if there is none)
  // exactly when the sender has no private chat older than that one, or none at all.
  lemma {:induction false} PrivatePostAddressing(s: State, u: nat, name: string)
    ensures var i := FindNamed(s.users, s.privates, u, name);
            WritePlace(s, u, PRIVATE, name) == ReadPlace(s, u, PRIVATE, name)
            <==> forall j :: 0 <= j < i ==> !Involves(s.privates[j], u)
  {
    assert PRIVATE[0] != GROUP[0];
  }
}
