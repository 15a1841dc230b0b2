// The messenger's text protocol read from both ends: what the client sends the server takes apart
// again, and what the server answers the client shows again.
module ChatWire {
  import opened StringParser
  import opened Decimal
  import opened ChatState
  import opened ChatServer

  // ---- Requests (Client::request) ----

  function RequestText(cmd: string, pipe: string, name: string, args: string): string {
    cmd + [SEP] + pipe + [SEP] + name + (if args == "" then "" else [SEP] + args)
  }

  // The arguments of a post or a poll.
  function ArgsText(mode: string, name: string, rest: string): string { mode + [SEP] + name + [SEP] + rest }

  lemma JoinTwo(a: string, b: string)
    ensures Join([a, b], SEP) == a + [SEP] + b
  {
    assert [a, b][1..] == [b];
  }

  lemma JoinThree(a: string, b: string, c: string)
    ensures Join([a, b, c], SEP) == a + [SEP] + b + [SEP] + c
  {
    assert [a, b, c][1..] == [b, c];
    JoinTwo(b, c);
  }

  lemma RequestParses(cmd: string, pipe: string, name: string, args: string)
    requires Free(cmd, SEP) && Free(pipe, SEP) && Free(name, SEP)
    ensures Split(RequestText(cmd, pipe, name, args), 4, SEP)
            == if args == "" then [cmd, pipe, name] else [cmd, pipe, name, args]
  {
    hide Split, Free, Join;
    var t := RequestText(cmd, pipe, name, args);
    JoinThree(cmd, pipe, name);
    if args == "" {
      assert t == Join([cmd, pipe, name], SEP);
      SplitJoin([cmd, pipe, name], 4, SEP);
    } else {
      var f := [cmd, pipe, name, args];
      assert f == [cmd, pipe, name] + [args];
      JoinMore([cmd, pipe, name], [args], SEP);
      JoinOne(args);
      assert t == Join(f, SEP);
      SplitJoin(f, 4, SEP);
    }
  }

  lemma JoinOne(a: string)
    ensures Join([a], SEP) == a
  {
  }

  lemma ArgsParse(mode: string, name: string, rest: string)
    requires Free(mode, SEP) && Free(name, SEP)
    ensures Split(ArgsText(mode, name, rest), 3, SEP) == [mode, name, rest]
  {
    hide Split, Free, Join;
    JoinThree(mode, name, rest);
    SplitJoin([mode, name, rest], 3, SEP);
  }

  // The words of the protocol have no separator in them.
  lemma WordsAreFree()
    ensures forall w ::
              w in {LOGIN, LOGOUT, PRIVATE_CHAT, JOIN, CREATE, PUSH_MSG, GET_MSG, CHATS, OK, ERROR, GROUP, PRIVATE} ==>
                Free(w, SEP)
  {
  }

  lemma WordsDiffer()
    ensures PUSH_MSG !in {LOGIN, LOGOUT, PRIVATE_CHAT, JOIN, CREATE}
    ensures GET_MSG !in {LOGIN, LOGOUT, PRIVATE_CHAT, JOIN, CREATE, PUSH_MSG}
    ensures OK != ERROR && PRIVATE != GROUP
  {
    assert PUSH_MSG[1] == 'u' && GET_MSG[1] == 'e' && |LOGIN| == 5 && |LOGOUT| == 6 && |JOIN| == 4 && |CREATE| == 6;
    assert |PRIVATE_CHAT| == 7 && |PUSH_MSG| == 8 && PRIVATE_CHAT[0] == 'p' && GET_MSG[0] == 'g';
    assert |OK| == 2 && |ERROR| == 5 && |GROUP| == 5 && |PRIVATE| == 7;
  }

  // A post leaves the client's fields intact, whatever characters its text is made of.
  lemma {:induction false} PostArrives(s: State, pipe: string, login: string, mode: string, name: string, text: string)
    requires Free(pipe, SEP) && Free(login, SEP) && Free(mode, SEP) && Free(name, SEP)
    ensures var u := FindUser(s.users, login);
            Step(s, RequestText(PUSH_MSG, pipe, login, ArgsText(mode, name, text)))
            == if u < |s.users| then PutMsg(s, pipe, u, mode, name, text) else Done(s, [])
  {
    hide Split, Free, PutMsg, FindUser;
    WordsAreFree();
    WordsDiffer();
    RequestParses(PUSH_MSG, pipe, login, ArgsText(mode, name, text));
    ArgsParse(mode, name, text);
  }

  lemma {:induction false} PollArrives(s: State, pipe: string, login: string, mode: string, name: string,
      cursor: string)
    requires Free(pipe, SEP) && Free(login, SEP) && Free(mode, SEP) && Free(name, SEP)
    ensures var u := FindUser(s.users, login);
            Step(s, RequestText(GET_MSG, pipe, login, ArgsText(mode, name, cursor)))
            == if u < |s.users| then GetMsg(s, pipe, u, mode, name, cursor) else Done(s, [])
  {
    hide Split, Free, GetMsg, FindUser;
    WordsAreFree();
    WordsDiffer();
    RequestParses(GET_MSG, pipe, login, ArgsText(mode, name, cursor));
    ArgsParse(mode, name, cursor);
  }

  // ---- Answers (Client::answer_handler, rec_get_msg) ----

  lemma ResponseParses(cmd: string, status: string, answer: string)
    requires Free(cmd, SEP) && Free(status, SEP)
    ensures Split(Response(cmd, status, answer), 3, SEP) == if answer == "" then [cmd, status]
            else [cmd, status, answer]
  {
    hide Split, Free, Join;
    JoinTwo(cmd, status);
    JoinThree(cmd, status, answer);
    if answer == "" {
      assert Response(cmd, status, answer) == Join([cmd, status], SEP);
      SplitJoin([cmd, status], 3, SEP);
    } else {
      assert Response(cmd, status, answer) == Join([cmd, status, answer], SEP);
      SplitJoin([cmd, status, answer], 3, SEP);
    }
  }

  // ---- The screen (print in messenger.cpp) ----

  datatype Color = White | Blue
  datatype Output = Output(text: string, color: Color)

  // state is 0 when a user name comes next, 1 when a message does.
  function Display(fs: seq<string>, state: nat): seq<Output>
    requires fs != []
  {
    if |fs| == 1 then [Output(fs[0] + "\n", White)]
    else if state == 0 then [Output(fs[0], Blue), Output(": ", White)] + Display(fs[1..], 1)
    else [Output(fs[0] + "\n", White)] + Display(fs[1..], 0)
  }

  function Screen(text: string): seq<Output> { Display(Fields(text, SEP), 0) }

  method PrintMessages(text: string, out: seq<Output>) returns (out': seq<Output>)
    ensures out' == out + Screen(text)
  {
    hide Fields, Display;
    out' := out;
    var state, last, i := 0, -1, 0;
    assert text[0..] == text;
    while i < |text|
      invariant -1 <= last < i <= |text| || last == -1 == i - 1
      invariant state == 0 || state == 1
      invariant Free(text[last + 1..i], SEP)
      invariant out' + Display(Fields(text[last + 1..], SEP), state) == out + Screen(text)
    {
      ghost var rest := text[last + 1..];
      if text[i] == SEP {
        var s := text[last + 1..i];
        assert rest[..i - last - 1] == s && rest[i - last..] == text[i + 1..];
        FieldsAt(rest, i - last - 1, SEP);
        ShowOne(s, Fields(text[i + 1..], SEP), state);
        if state == 0 {
          out' := Emit(out', [Output(s, Blue), Output(": ", White)], Display(Fields(text[i + 1..], SEP), 1));
          state := 1;
        } else {
          out' := Emit(out', [Output(s + "\n", White)], Display(Fields(text[i + 1..], SEP), 0));
          state := 0;
        }
        last := i;
      } else {
        assert text[last + 1..i + 1] == text[last + 1..i] + [text[i]];
      }
      i := i + 1;
    }
    assert text[last + 1..i] == text[last + 1..];
    FieldsWhole(text[last + 1..], SEP);
    ShowLast(text[last + 1..], state);
    out' := out' + [Output(text[last + 1..] + "\n", White)];
  }

  method Emit(out: seq<Output>, more: seq<Output>, ghost rest: seq<Output>) returns (out': seq<Output>)
    ensures out' == out + more && out' + rest == out + (more + rest)
  {
    out' := out + more;
  }

  lemma {:induction false} ShowOne(s: string, rest: seq<string>, state: nat)
    requires rest != []
    ensures Display([s] + rest, state)
            == if state == 0 then [Output(s, Blue), Output(": ", White)] + Display(rest, 1)
               else [Output(s + "\n", White)] + Display(rest, 0)
  {
    assert ([s] + rest)[1..] == rest;
  }

  lemma {:induction false} ShowLast(s: string, state: nat)
    ensures Display([s], state) == [Output(s + "\n", White)]
  {
  }

  // The list of fields that print hands to the list of chats.
  method ChatFields(text: string) returns (chats: seq<string>)
    ensures chats == Fields(text, SEP)
  {
    hide Fields;
    chats := [];
    var last, i := -1, 0;
    assert text[0..] == text;
    while i < |text|
      invariant -1 <= last < i <= |text| || last == -1 == i - 1
      invariant Free(text[last + 1..i], SEP)
      invariant chats + Fields(text[last + 1..], SEP) == Fields(text, SEP)
    {
      ghost var rest := text[last + 1..];
      if text[i] == SEP {
        assert rest[..i - last - 1] == text[last + 1..i] && rest[i - last..] == text[i + 1..];
        FieldsAt(rest, i - last - 1, SEP);
        chats := TakeField(chats, text[last + 1..i], Fields(text[i + 1..], SEP));
        last := i;
      } else {
        assert text[last + 1..i + 1] == text[last + 1..i] + [text[i]];
      }
      i := i + 1;
    }
    assert text[last + 1..i] == text[last + 1..];
    FieldsWhole(text[last + 1..], SEP);
    chats := chats + [text[last + 1..]];
  }

  // ---- Messages come through ----

  predicate CleanMessage(m: Message) { Free(m.from, SEP) && Free(m.text, SEP) }

  predicate Clean(ms: seq<Message>) { forall i :: 0 <= i < |ms| ==> CleanMessage(ms[i]) }

  function Flat(ms: seq<Message>): seq<string> {
    if ms == [] then [] else Flat(ms[..|ms| - 1]) + [ms[|ms| - 1].from, ms[|ms| - 1].text]
  }

  lemma {:induction false} EncodedIsJoin(ms: seq<Message>)
    requires ms != []
    ensures Flat(ms) != [] && Encoded(ms) == Join(Flat(ms), SEP) + [SEP]
  {
    hide Join;
    var less, m := ms[..|ms| - 1], ms[|ms| - 1];
    JoinTwo(m.from, m.text);
    if less == [] {
      assert Flat(ms) == [m.from, m.text];
      assert Encoded(ms) == m.from + [SEP] + m.text + [SEP];
    } else {
      EncodedIsJoin(less);
      JoinMore(Flat(less), [m.from, m.text], SEP);
      assert Encoded(ms) == (Join(Flat(less), SEP) + [SEP] + Join([m.from, m.text], SEP)) + [SEP];
    }
  }

  lemma {:induction false} FlatIsFree(ms: seq<Message>)
    requires Clean(ms)
    ensures forall j :: 0 <= j < |Flat(ms)| ==> Free(Flat(ms)[j], SEP)
  {
    hide Free;
    if ms != [] {
      assert CleanMessage(ms[|ms| - 1]);
      FlatIsFree(ms[..|ms| - 1]);
    }
  }

  // What a reader should see: every message on a line of its own, after its author.
  function Printed(ms: seq<Message>): seq<Output> {
    if ms == [] then []
    else
      var m := ms[|ms| - 1];
      Printed(ms[..|ms| - 1]) + [Output(m.from, Blue), Output(": ", White), Output(m.text + "\n", White)]
  }

  lemma {:induction false} PrintedSplits(a: seq<Message>, b: seq<Message>)
    ensures Printed(a + b) == Printed(a) + Printed(b)
  {
    if b == [] {
      assert a + b == a;
    } else {
      assert (a + b)[..|a + b| - 1] == a + b[..|b| - 1];
      PrintedSplits(a, b[..|b| - 1]);
    }
  }

  lemma {:induction false} DisplayMore(fs: seq<string>, from: string, text: string)
    requires |fs| % 2 == 0 && fs != []
    ensures Display(fs + [from, text], 0)
            == Display(fs, 0) + [Output(from, Blue), Output(": ", White), Output(text + "\n", White)]
    decreases |fs|
  {
    if |fs| == 2 {
      assert (fs + [from, text])[1..] == [fs[1], from, text];
      assert [fs[1], from, text][1..] == [from, text] && [from, text][1..] == [text] && fs[1..] == [fs[1]];
      assert Display(fs, 0) == [Output(fs[0], Blue), Output(": ", White), Output(fs[1] + "\n", White)];
      assert Display([from, text], 0) == [Output(from, Blue), Output(": ", White), Output(text + "\n", White)];
      assert Display([fs[1], from, text], 1) == [Output(fs[1] + "\n", White)] + Display([from, text], 0);
    } else {
      var rest := fs[2..];
      DisplayMore(rest, from, text);
      ShowTwo(fs[0], fs[1], rest);
      ShowTwo(fs[0], fs[1], rest + [from, text]);
      assert fs == [fs[0], fs[1]] + rest && fs + [from, text] == [fs[0], fs[1]] + (rest + [from, text]);
    }
  }

  lemma {:induction false} ShowTwo(a: string, b: string, rest: seq<string>)
    requires rest != []
    ensures Display([a, b] + rest, 0) == [Output(a, Blue), Output(": ", White), Output(b + "\n", White)]
            + Display(rest, 0)
  {
    ShowOne(a, [b] + rest, 0);
    ShowOne(b, rest, 1);
    assert [a] + ([b] + rest) == [a, b] + rest;
  }

  lemma {:induction false} DisplayFlat(ms: seq<Message>)
    requires ms != []
    ensures Flat(ms) != [] && |Flat(ms)| % 2 == 0 && Display(Flat(ms), 0) == Printed(ms)
  {
    var less, m := ms[..|ms| - 1], ms[|ms| - 1];
    if less == [] {
      assert Flat(ms) == [m.from, m.text] && [m.from, m.text][1..] == [m.text];
      assert Printed(ms) == [Output(m.from, Blue), Output(": ", White), Output(m.text + "\n", White)];
    } else {
      DisplayFlat(less);
      DisplayMore(Flat(less), m.from, m.text);
    }
  }

  // Encoding messages, dropping the last separator, splitting and printing shows exactly them.
  lemma {:induction false} MessagesShown(ms: seq<Message>)
    requires Clean(ms)
    ensures Strip(Encoded(ms)) == "" <==> ms == []
    ensures ms != [] ==> Screen(Strip(Encoded(ms))) == Printed(ms)
  {
    if ms != [] {
      hide Free, Display, Fields, Join;
      EncodedIsJoin(ms);
      FlatIsFree(ms);
      DisplayFlat(ms);
      FieldsOfJoin(Flat(ms), SEP);
      assert Strip(Encoded(ms)) == Join(Flat(ms), SEP);
      JoinLength(Flat(ms), SEP);
    }
  }

  lemma {:induction false} DigitsAreFree(n: nat)
    ensures Free(ToString(n), SEP)
  {
  }

  // rec_get_msg: the cursor in front, the messages behind it.
  lemma {:induction false} PollAnswerParses(log: seq<Message>, id: nat)
    ensures Split(PollAnswer(log, id), 2, SEP) == [ToString(LastId(log, id)), Strip(Encoded(Newer(log, id)))]
  {
    hide Split, Free, Join, Strip, Encoded, Newer, LastId;
    var lid, rest := ToString(LastId(log, id)), Strip(Encoded(Newer(log, id)));
    DigitsAreFree(LastId(log, id));
    JoinTwo(lid, rest);
    SplitJoin([lid, rest], 2, SEP);
  }
}
