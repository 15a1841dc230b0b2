// The messenger's client: its requests, and what it makes of the answers (KP/client/client.cpp).
module ChatClient {
  import opened StringParser
  import opened ChatState
  import opened ChatWire

  const MIN_NAME_SIZE := 2
  const MAX_NAME_SIZE := 20
  const MAX_MESSAGE_CHARACTERS := 2048

  datatype Mode = NotLogin | InGroupChat | InPrivateChat | InMainMenu

  // What the client hands to its print function.
  datatype Item = Info(text: string) | Problem(text: string) | Messages(text: string) | ChatInfo(text: string)

  datatype ClientState = ClientState(mode: Mode, login: string, chat: string, cursor: string, pipe: string,
                                     sent: seq<string>, printed: seq<Item>)

  function Say(c: ClientState, item: Item): ClientState { c.(printed := c.printed + [item]) }

  // Before logging in, a client goes by a name no user can have.
  function AskText(c: ClientState, cmd: string, args: string): string {
    RequestText(cmd, c.pipe, if c.mode == NotLogin then NONE_USER else c.login, args)
  }

  function Asked(c: ClientState, cmd: string, args: string): ClientState {
    c.(sent := c.sent + [AskText(c, cmd, args)])
  }

  function ChatKind(c: ClientState): string { if c.mode == InGroupChat then GROUP else PRIVATE }

  function Inside(c: ClientState, mode: Mode, chat: string, title: string): ClientState {
    Say(c.(mode := mode, chat := chat, cursor := "0"), Info(title + chat))
  }

  function ReadMessages(c: ClientState, args: string): ClientState {
    var f := Split(args, 2, SEP);
    if |f| < 2 || f[1] == "" then c.(cursor := f[0]) else Say(c.(cursor := f[0]), Messages(f[1]))
  }

  // An answer of fewer than two fields, or a poll's of fewer than two, is read past its end.
  predicate Readable(answer: string) {
    var f := Split(answer, 3, SEP);
    |f| >= 2 && (f[0] == GET_MSG && f[1] != ERROR ==> |f| == 3 && |Split(f[2], 2, SEP)| == 2)
  }

  function Handled(c: ClientState, answer: string): ClientState {
    var f := Split(answer, 3, SEP);
    if |f| < 2 then c
    else
      var args := if |f| == 2 then "" else f[2];
      if f[1] == ERROR then Say(c, Problem("Error: " + args))
      else if f[0] == LOGIN then Say(c.(mode := InMainMenu), Info("successful authorization"))
      else if f[0] == PRIVATE_CHAT then Inside(c, InPrivateChat, args, "Chat with the user ")
      else if f[0] == CREATE || f[0] == JOIN then Inside(c, InGroupChat, args, "Group chat ")
      else if f[0] == GET_MSG then ReadMessages(c, args)
      else if f[0] == CHATS then if args == "" then c else Say(c, ChatInfo(args))
      else c
  }

  // What a poll asks for: the chat the client is in, from a given message on.
  function PollFrom(c: ClientState, last: string): string { AskText(c, GET_MSG, ArgsText(ChatKind(c), c.chat, last)) }

  // The updater always polls from the cursor of the last answer.
  function PollText(c: ClientState): string { PollFrom(c, c.cursor) }

  function NotLoggedIn(c: ClientState): ClientState { Say(c, Problem("user is not logged in")) }

  function Pushed(c: ClientState, text: string): ClientState {
    if c.mode == NotLogin then NotLoggedIn(c)
    else if SEP in text then Say(c, Problem("Text contains forbidden characters"))
    else if |text| > MAX_MESSAGE_CHARACTERS then
      Asked(Say(Say(c, Problem("Message size must be less than 2049")), Problem("The message is truncated")),
            PUSH_MSG, ArgsText(ChatKind(c), c.chat, text[..MAX_MESSAGE_CHARACTERS]))
    else Asked(c, PUSH_MSG, ArgsText(ChatKind(c), c.chat, text))
  }

  // ---- The other commands of the user ----

  predicate NameFits(name: string) { MIN_NAME_SIZE <= |name| <= MAX_NAME_SIZE }

  // The login is taken over before the server has said anything.
  function LoginAsked(c: ClientState, login: string): ClientState {
    if c.mode != NotLogin then Say(c, Problem("user is already logged in"))
    else if !NameFits(login) then Say(c, Problem("Name size must be greater than 1 and less than 21"))
    else if SEP in login then Say(c, Problem("Name contains forbidden characters"))
    else Asked(c.(login := login), LOGIN, login)
  }

  function LogoutAsked(c: ClientState): ClientState {
    if c.mode == NotLogin then NotLoggedIn(c)
    else Say(Asked(c, LOGOUT, "").(mode := NotLogin), Info("logout successful"))
  }

  // Joining a group, or opening a private chat.
  function OpeningAsked(c: ClientState, cmd: string, name: string): ClientState {
    if c.mode == NotLogin then NotLoggedIn(c) else Asked(c, cmd, name)
  }

  function CreateAsked(c: ClientState, name: string): ClientState {
    if c.mode == NotLogin then NotLoggedIn(c)
    else if !NameFits(name) then Say(c, Problem("Chat name size must be greater than 1 and less than 21"))
    else if SEP in name then Say(c, Problem("Chat name contains forbidden characters"))
    else Asked(c, CREATE, name)
  }

  class Client {
    var mode: Mode
    var login: string
    var chatName: string
    var lastUpdateId: string
    const pipe: string
    var sent: seq<string>
    var printed: seq<Item>

    function View(): ClientState
      reads this
    {
      ClientState(mode, login, chatName, lastUpdateId, pipe, sent, printed)
    }

    constructor (pipe: string)
      ensures View() == ClientState(NotLogin, "", "", "0", pipe, [], [])
    {
      this.pipe := pipe;
      mode, login, chatName, lastUpdateId, sent, printed := NotLogin, "", "", "0", [], [];
    }

    method Print(item: Item)
      modifies this`printed
      ensures printed == old(printed) + [item]
    {
      printed := printed + [item];
    }

    method Request(command: string, arguments: string)
      modifies this`sent
      ensures View() == Asked(old(View()), command, arguments)
    {
      var name := if mode == NotLogin then NONE_USER else login;
      var args := "";
      if arguments != "" {
        args := args + [SEP];
      }
      args := args + arguments;
      assert args == if arguments == "" then "" else [SEP] + arguments;
      sent := sent + [command + [SEP] + pipe + [SEP] + name + args];
    }

    method UpdateChat(lastId: string)
      modifies this`sent
      ensures View() == old(View()).(sent := old(sent) + [PollFrom(old(View()), lastId)])
    {
      var args := (if mode == InGroupChat then GROUP else PRIVATE) + [SEP] + chatName + [SEP] + lastId;
      Request(GET_MSG, args);
    }

    method CmdLogin(name: string)
      modifies this`login, this`sent, this`printed
      ensures View() == LoginAsked(old(View()), name)
    {
      if mode != NotLogin {
        Print(Problem("user is already logged in"));
        return;
      }
      if |name| < MIN_NAME_SIZE || |name| > MAX_NAME_SIZE {
        Print(Problem("Name size must be greater than 1 and less than 21"));
        return;
      }
      if SEP in name {
        Print(Problem("Name contains forbidden characters"));
        return;
      }
      login := name;
      Request(LOGIN, name);
    }

    method CmdLogout()
      modifies this`mode, this`sent, this`printed
      ensures View() == LogoutAsked(old(View()))
    {
      if mode == NotLogin {
        Print(Problem("user is not logged in"));
        return;
      }
      Request(LOGOUT, "");
      mode := NotLogin;
      Print(Info("logout successful"));
    }

    method CmdJoin(name: string)
      modifies this`sent, this`printed
      ensures View() == OpeningAsked(old(View()), JOIN, name)
    {
      if mode == NotLogin {
        Print(Problem("user is not logged in"));
        return;
      }
      Request(JOIN, name);
    }

    method CmdPrivate(name: string)
      modifies this`sent, this`printed
      ensures View() == OpeningAsked(old(View()), PRIVATE_CHAT, name)
    {
      if mode == NotLogin {
        Print(Problem("user is not logged in"));
        return;
      }
      Request(PRIVATE_CHAT, name);
    }

    method CmdCreate(name: string)
      modifies this`sent, this`printed
      ensures View() == CreateAsked(old(View()), name)
    {
      if mode == NotLogin {
        Print(Problem("user is not logged in"));
        return;
      }
      if |name| < MIN_NAME_SIZE || |name| > MAX_NAME_SIZE {
        Print(Problem("Chat name size must be greater than 1 and less than 21"));
        return;
      }
      if SEP in name {
        Print(Problem("Chat name contains forbidden characters"));
        return;
      }
      Request(CREATE, name);
    }

    method CmdChats()
      modifies this`sent
      ensures View() == Asked(old(View()), CHATS, "")
    {
      Request(CHATS, "");
    }

    method CmdPush(text: string)
      modifies this`sent, this`printed
      ensures View() == Pushed(old(View()), text)
    {
      if mode == NotLogin {
        Print(Problem("user is not logged in"));
        return;
      }
      var req := text;
      if SEP in text {
        Print(Problem("Text contains forbidden characters"));
        return;
      }
      if |text| > MAX_MESSAGE_CHARACTERS {
        Print(Problem("Message size must be less than 2049"));
        Print(Problem("The message is truncated"));
        req := req[..MAX_MESSAGE_CHARACTERS];
      }
      var args := (if mode == InGroupChat then GROUP else PRIVATE) + [SEP] + chatName + [SEP] + req;
      Request(PUSH_MSG, args);
    }

    method RecEnter(m: Mode, args: string, title: string)
      modifies this
      ensures View() == Inside(old(View()), m, args, title)
    {
      mode := m;
      chatName := args;
      lastUpdateId := "0";
      Print(Info(title + args));
    }

    method RecGetMsg(args: string)
      requires |Split(args, 2, SEP)| == 2
      modifies this
      ensures View() == ReadMessages(old(View()), args)
    {
      var f := StringParser.Parse(args, 2, [], SEP);
      lastUpdateId := f[0];
      if f[1] == "" {
        return;
      }
      Print(Messages(f[1]));
    }

    method AnswerHandler(answer: string)
      requires Readable(answer)
      modifies this
      ensures View() == Handled(old(View()), answer)
    {
      var f := StringParser.Parse(answer, 3, [], SEP);
      var cmd, status := f[0], f[1];
      var args := if |f| == 2 then "" else f[2];
      if status == ERROR {
        Print(Problem("Error: " + args));
      } else if cmd == LOGIN {
        mode := InMainMenu;
        Print(Info("successful authorization"));
      } else if cmd == PRIVATE_CHAT {
        RecEnter(InPrivateChat, args, "Chat with the user ");
      } else if cmd == CREATE {
        RecEnter(InGroupChat, args, "Group chat ");
      } else if cmd == JOIN {
        RecEnter(InGroupChat, args, "Group chat ");
      } else if cmd == GET_MSG {
        RecGetMsg(args);
      } else if cmd == CHATS {
        if args != "" {
          Print(ChatInfo(args));
        }
      }
    }
  }
}
