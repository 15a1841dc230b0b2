// What the chat server remembers, and what each of its commands does to it (KP/server/server.cpp).
module ChatState {
  import opened StringParser
  import opened Decimal

  const SEP := '|'
  const NONE_USER := "__NONE"
  const SYSTEM := "SYSTEM"
  const OK := "OK"
  const ERROR := "ERROR"
  const LOGIN := "login"
  const LOGOUT := "logout"
  const PRIVATE_CHAT := "private"
  const JOIN := "join"
  const CREATE := "create"
  const PUSH_MSG := "push_msg"
  const GET_MSG := "get_msg"
  const CHATS := "chats"
  const GROUP := "GROUP"
  const PRIVATE := "PRIVATE"

  // Users are told apart by where they stand in the list of users: none is ever taken out.
  datatype User = User(login: string, authorized: bool)
  datatype Message = Message(from: string, text: string, id: nat)
  datatype Private = Private(user1: nat, user2: nat, messages: seq<Message>)
  datatype Group = Group(name: string, owner: string, users: seq<nat>, messages: seq<Message>)
  datatype State =
    State(users: seq<User>, privates: seq<Private>, groups: seq<Group>, posts: seq<Message>, counter: nat)

  // A line written to somebody's pipe.
  datatype Letter = Letter(pipe: string, text: string)

  // Undefined: the program reads past the end of a vector or through a null pointer.
  datatype Outcome = Done(state: State, letters: seq<Letter>) | Undefined

  const EMPTY := State([], [], [], [], 0)

  // ---- Looking things up: the first hit, or the length of the list ----

  function FindUser(us: seq<User>, login: string): (i: nat)
    ensures i <= |us| && (i < |us| ==> us[i].login == login)
    ensures forall j :: 0 <= j < i ==> us[j].login != login
  {
    if us == [] || us[0].login == login then 0 else 1 + FindUser(us[1..], login)
  }

  function FindGroup(gs: seq<Group>, name: string): (i: nat)
    ensures i <= |gs| && (i < |gs| ==> gs[i].name == name)
    ensures forall j :: 0 <= j < i ==> gs[j].name != name
  {
    if gs == [] || gs[0].name == name then 0 else 1 + FindGroup(gs[1..], name)
  }

  predicate Between(c: Private, u: nat, v: nat) {
    (c.user1 == u && c.user2 == v) || (c.user2 == u && c.user1 == v)
  }

  function FindPair(ps: seq<Private>, u: nat, v: nat): (i: nat)
    ensures i <= |ps| && (i < |ps| ==> Between(ps[i], u, v))
    ensures forall j :: 0 <= j < i ==> !Between(ps[j], u, v)
  {
    if ps == [] || Between(ps[0], u, v) then 0 else 1 + FindPair(ps[1..], u, v)
  }

  function LoginOf(us: seq<User>, i: nat): string { if i < |us| then us[i].login else "" }

  predicate Named(us: seq<User>, c: Private, u: nat, name: string) {
    (c.user1 == u && LoginOf(us, c.user2) == name) || (c.user2 == u && LoginOf(us, c.user1) == name)
  }

  function FindNamed(us: seq<User>, ps: seq<Private>, u: nat, name: string): (i: nat)
    ensures i <= |ps| && (i < |ps| ==> Named(us, ps[i], u, name))
    ensures forall j :: 0 <= j < i ==> !Named(us, ps[j], u, name)
  {
    if ps == [] || Named(us, ps[0], u, name) then 0 else 1 + FindNamed(us, ps[1..], u, name)
  }

  predicate Involves(c: Private, u: nat) { c.user1 == u || c.user2 == u }

  function FindOwn(ps: seq<Private>, u: nat): (i: nat)
    ensures i <= |ps| && (i < |ps| ==> Involves(ps[i], u))
    ensures forall j :: 0 <= j < i ==> !Involves(ps[j], u)
  {
    if ps == [] || Involves(ps[0], u) then 0 else 1 + FindOwn(ps[1..], u)
  }

  // ---- Answers ----

  function Response(cmd: string, status: string, answer: string): string {
    cmd + [SEP] + status + (if answer == "" then "" else [SEP] + answer)
  }

  function Answer(s: State, pipe: string, cmd: string, status: string, answer: string): Outcome {
    Done(s, [Letter(pipe, Response(cmd, status, answer))])
  }

  // ---- Logging in and out ----

  function Login(s: State, pipe: string, login: string): Outcome {
    var i := FindUser(s.users, login);
    if i < |s.users| && s.users[i].authorized then
      Answer(s, pipe, LOGIN, ERROR, "user " + login + " already logged in")
    else if login == NONE_USER || login == SYSTEM then Answer(s, pipe, LOGIN, ERROR, "forbidden name")
    else
      var us := if i < |s.users| then s.users[i := User(s.users[i].login, true)] else s.users + [User(login, true)];
      Answer(s.(users := us), pipe, LOGIN, OK, "")
  }

  function Logout(s: State, u: nat): Outcome
    requires u < |s.users|
  {
    Done(s.(users := s.users[u := User(s.users[u].login, false)]), [])
  }

  // ---- Opening chats ----

  function OpenPrivate(s: State, pipe: string, u: nat, login: string): Outcome
    requires u < |s.users|
  {
    var v := FindUser(s.users, login);
    if s.users[u].login == login then Answer(s, pipe, PRIVATE_CHAT, ERROR, "нельзя говорить с самим собой")
    else if v == |s.users| then Answer(s, pipe, PRIVATE_CHAT, ERROR, "user " + login + " not found")
    else
      var ps := if FindPair(s.privates, u, v) < |s.privates| then s.privates else s.privates + [Private(u, v, [])];
      Answer(s.(privates := ps), pipe, PRIVATE_CHAT, OK, login)
  }

  // unsigned long
  function Next(n: nat): nat { (n + 1) % WORD }

  function Welcome(s: State, u: nat): Message
    requires u < |s.users|
  {
    Message(SYSTEM, "User " + s.users[u].login + " joined the chat", Next(s.counter))
  }

  function CreateGroup(s: State, pipe: string, u: nat, name: string): Outcome
    requires u < |s.users|
  {
    if FindGroup(s.groups, name) < |s.groups| then
      Answer(s, pipe, CREATE, ERROR, "chat " + name + " already exists")
    else
      var g := Group(name, s.users[u].login, [u], [Welcome(s, u)]);
      Answer(s.(groups := s.groups + [g], counter := Next(s.counter)), pipe, CREATE, OK, name)
  }

  function Entered(g: Group, u: nat, m: Message): Group {
    g.(users := g.users + [u], messages := g.messages + [m])
  }

  function JoinGroup(s: State, pipe: string, u: nat, name: string): Outcome
    requires u < |s.users|
  {
    var i := FindGroup(s.groups, name);
    if i == |s.groups| then Answer(s, pipe, JOIN, ERROR, "chat " + name + " not found")
    else if u in s.groups[i].users then Answer(s, pipe, JOIN, OK, name)
    else
      var gs := s.groups[i := Entered(s.groups[i], u, Welcome(s, u))];
      Answer(s.(groups := gs, counter := Next(s.counter)), pipe, JOIN, OK, name)
  }

  // ---- Reading and writing ----

  // Which list of messages a request is about; NoList for an unknown kind of chat.
  datatype Place = InPrivate(i: nat) | InGroup(i: nat) | Missing(what: string) | NoList

  function InGroupNamed(s: State, name: string): Place {
    var i := FindGroup(s.groups, name);
    if i < |s.groups| then InGroup(i) else Missing("chat " + name + " not found")
  }

  function ReadPlace(s: State, u: nat, mode: string, name: string): Place {
    if mode == GROUP then InGroupNamed(s, name)
    else if mode == PRIVATE then
      var i := FindNamed(s.users, s.privates, u, name);
      if i < |s.privates| then InPrivate(i) else Missing("user " + name + " not found")
    else NoList
  }

  // A private post goes to the first private chat of the sender, whatever the name says.
  function WritePlace(s: State, u: nat, mode: string, name: string): Place {
    if mode == GROUP then InGroupNamed(s, name)
    else if mode == PRIVATE then
      var i := FindOwn(s.privates, u);
      if i < |s.privates| then InPrivate(i) else Missing("user " + name + " not found")
    else NoList
  }

  function Log(s: State, p: Place): seq<Message> {
    match p
    case InPrivate(i) => if i < |s.privates| then s.privates[i].messages else []
    case InGroup(i) => if i < |s.groups| then s.groups[i].messages else []
    case _ => []
  }

  function Posted(s: State, p: Place, m: Message): State {
    match p
    case InPrivate(i) =>
      if i < |s.privates| then
        s.(privates := s.privates[i := s.privates[i].(messages := s.privates[i].messages + [m])])
      else s
    case InGroup(i) =>
      if i < |s.groups| then s.(groups := s.groups[i := s.groups[i].(messages := s.groups[i].messages + [m])])
      else s
    case _ => s
  }

  function PutMsg(s: State, pipe: string, u: nat, mode: string, name: string, text: string): Outcome
    requires u < |s.users|
  {
    match WritePlace(s, u, mode, name)
    case NoList => Undefined
    case Missing(what) => Answer(s, pipe, GET_MSG, ERROR, what)
    case p =>
      var m := Message(s.users[u].login, text, Next(s.counter));
      Answer(Posted(s, p, m).(posts := s.posts + [m], counter := Next(s.counter)), pipe, PUSH_MSG, OK, "")
  }

  function Newer(log: seq<Message>, id: nat): seq<Message> {
    if log == [] then []
    else
      var last := log[|log| - 1];
      Newer(log[..|log| - 1], id) + (if last.id > id then [last] else [])
  }

  function LastId(log: seq<Message>, id: nat): nat {
    if log == [] then id
    else
      var lid, last := LastId(log[..|log| - 1], id), log[|log| - 1];
      if last.id > id && last.id > lid then last.id else lid
  }

  // `from|text|` for every message
  function Encoded(ms: seq<Message>): string {
    if ms == [] then ""
    else
      var last := ms[|ms| - 1];
      Encoded(ms[..|ms| - 1]) + (last.from + [SEP] + last.text + [SEP])
  }

  function Strip(s: string): string { if s == "" then "" else s[..|s| - 1] }

  function PollAnswer(log: seq<Message>, id: nat): string {
    ToString(LastId(log, id)) + [SEP] + Strip(Encoded(Newer(log, id)))
  }

  function GetMsg(s: State, pipe: string, u: nat, mode: string, name: string, last: string): Outcome {
    match ReadPlace(s, u, mode, name)
    case NoList => Undefined
    case Missing(what) => Answer(s, pipe, GET_MSG, ERROR, what)
    case p => Answer(s, pipe, GET_MSG, OK, PollAnswer(Log(s, p), ParseId(last)))
  }
}
