# Operating-systems labs, modelled and proved in Dafny

Three programs of the repository are modelled here, each in the form its code has: objects with
fields are classes whose methods are proved against functions on values, loops are loops with
invariants, and concurrent parts are state machines whose every interleaving is covered.

**lab6, the self-repairing tree of processes.** A controller keeps an array heap of node ids and a
network of processes is meant to have its shape. `Overlay` has the messages and what a node does
with one, `Controller` the controller as a function on values (creating, removal scripts, answer
counters), `ControlNode`, `ComputeNode`, `BalancedTree` and `RmList` the objects that change in
place. Requests travel through one inbox per process, processes run at their own speed, and replies
come back in any order, possibly long after their request is over. `Flood` shows that such
overlapping floods behave as if each had run alone: a ghost history keeps the network each request
found, and every process is in the state the history gives it at its own time. On this stand
`Answers` and `Counting` (which replies a flood draws, and how many), `Phases`, `Shapes` and
`Scripts` (the steps of a removal), `TreeLedger` (what each command means, and which report answers
which command), and `TreeSystem`, `TreeRuns` and `TreeTheorems` (every run of the whole system);
`ExecAnswers` accounts for every exec from the node that carried it out to its report;
`TreeObjects` and `NodeObjects` show that the objects can serve every such run and end where it ends,
`LateCommands` what becomes of a command that comes in during a removal, and `ControllerRecords` what
a refusal leaves behind. `HeapShape`,
`HeapWalk` and `Naturals` are the arithmetic of array heaps, `AnswerOrder` the counter against every
order of answers, `PingWave` and `Heartbeat` the failure detector.

**KP, the chat server and its text protocol.** `StringParser` and `Decimal` are the fields and
numbers on the wire; `ChatState`, `ChatList` and `ChatServer` the server; `ChatClient` the client;
`ChatRequests` has what each request line does, told by users, chats and messages, `ChatSession` the
client's commands from the line sent to the answer read, and `ChatInvariants`, `ChatAddressing`,
`ChatWire`, `ChatPolling` and `ChatListing` what else is proved of them together.

**lab3, the parallel mean.** `HexCodec` is the 128-bit hexadecimal codec; `ParallelMean` the threads
that share a file; `FileMean` puts the two together.

Where the code does not do what one would hope, the model follows the code and the exact condition
is proved:

- a request that no node acts on is reported, with its last answer, exactly when the array the counter
  is taken from has as many leaves as the flooded network (`AbsentTarget`). A create that
  nobody acts on never ends, since the network lacks both the new entry and its parent
  (`UnansweredCreate`); an exec is reported exactly when its target is all the network lacks and the array has an even size
  (`UnansweredExec`). Runs that hang are an exec of the last of five entries (`ExecHangs`) and a create
  below entry 3 of seven (`CreateHangs`), while the answer to the last step of that entry's removal is
  still on the way;
- a private post goes to the sender's first private chat, whoever it names, so it fares as it should
  exactly when the sender has no private chat older than the one meant (`PrivatePostAddressing`,
  `PostGoesAstray`);
- the message counter wraps around at 2^64: a request keeps the invariant exactly when a number is
  left or the request needs none (`StepKeepsExactly`);
- the list of chats is in the right order exactly up to message 2^31 (`KeyOrderExactly`), and a run
  of the server turns it round (`NewestListedLast`);
- a cursor survives its decimal form exactly up to 2^63 - 1 (`IdSurvives`);
- hexadecimal text survives exactly in upper case (`CodecIsBijection`);
- the threads take every record, without an undefined step, exactly when no read of the file can
  return 2147483712 bytes or more (`MeanIgnoresSchedule`): the inner loop computes 33 * i as an int
  (`SmallestLongRead`), and from 2^32 bytes on the read count is cut down as well
  (`HugeChunkTakesNothing`).

`dafny verify dfyconfig.toml` checks everything.

## Model

| member | source | states |
|---|---|---|
| TreeTheorems.RunRefinesArray | lab6/control_node.c:180-271 | Over any run of creates, removes, execs, process steps and replies in any interleaving, with any number of creates and execs open, the array is what the commands mean on a plain list whenever no removal is open, ids and ports unique, control node first; and whenever no create is open either, the live processes are connected exactly as its heap |
| TreeTheorems.RunAnswersEach | lab6/control_node.c:317-392 | Over any such run every report answers a command of its own, given before it, with what that command means on the plain list (new pid, removed, exists, not found, control node, or that the exec was carried out; how it ended is ExecAnswers), so no live node is ever reported missing and no removal given up; commands not yet reported are exactly the open ones |
| TreeTheorems.LogIsSequential | lab6/control_node.c:180-297 | If each command finds the controller free, the log is, in order, the sequential meaning of the commands, an exec's outcome being left to ExecAnswers |
| ExecAnswers.ExecsAreAccountedFor | lab6/compute_node.c:153-200 | At every moment of any run, for each id and either outcome: the reports of such execs made so far and the answers still on their way together are as many as the execs of that id processes have taken out of their inboxes and carried out with that outcome |
| ExecAnswers.ExecReportsAreAnswers | lab6/control_node.c:387-392 | Once no command is open, the reports of execs of an id, well or with an error of the node's own, are exactly as many as its process carried out that way: none is lost, made up or told with the wrong outcome |
| ExecAnswers.ReportHasItsStep | lab6/control_node.c:387-392 | Every report of an exec has a step of the run in which a process of that id carried one out with that very outcome |
| ExecAnswers.UniformOutcome | lab6/compute_node.c:160-196 | If every exec goes well at its node no report is an error, and if none does no report is an OK |
| TreeTheorems.NeverStuck | lab6/control_node.c:411-455 | While a command is open, some process or the controller can always take a step |
| TreeTheorems.EveryCommandEnds | lab6/control_node.c:457-478 | From every reachable state the number of steps without new commands is bounded, in whatever order they are taken |
| TreeTheorems.MirroredHops | lab6/structures/balanced_tree.c:40-69 | In a mirrored network entry i is exactly Depth(i) child slots away from the control node, and 2^Depth(i) is at most the size |
| TreeTheorems.DepthIsLog | lab6/structures/balanced_tree.c:46-48 | Depth(i) is the floor of log2(i + 1) |
| TreeRuns.ProcessKeeps | lab6/compute_node.c:36-97 | The system invariant survives any process taking the oldest request from its inbox, which moves only that process on in time |
| TreeRuns.ReceiveKeeps | lab6/control_node.c:457-478 | The system invariant survives any pending reply reaching the controller, late ones of finished requests included |
| TreeRuns.CreateKeeps | lab6/control_node.c:180-206 | The system invariant survives a create command with any number of creates and execs open: the new node is attached below the parent the array gives it, also if that parent is still to be attached itself; a known id is reported at once |
| TreeRuns.RemoveKeeps | lab6/control_node.c:208-271 | The system invariant survives a remove command, known, unknown or naming the control node |
| TreeRuns.ExecKeeps | lab6/control_node.c:273-297 | The system invariant survives an exec command with any number of creates and execs open, its target's create included |
| TreeRuns.StillCounting | lab6/control_node.c:171-178 | As long as only "not found" has come back for an open request whose target is in the tree, a further answer finds the counter above zero, and a further "not found" leaves it above zero |
| TreeSystem.PushNextRuns | lab6/control_node.c:411-455 | From any step of a script the controller, acting itself where the layout says so, ends with the next request sent or the removal complete, the network in the shape that step leads to |
| TreeSystem.AdvanceRuns | lab6/control_node.c:337-386 | An OK for the current step leads to the following step's request or to the completed removal |
| Flood.DeliverKeepsInv | lab6/compute_node.c:119-125 | When a process takes a request, the ghost history still explains every process and every inbox: overlapping floods behave as if run one after the other |
| Flood.IssueKeepsInv | lab6/structures/mq_node.c:83-88 | Pushing a new request to the control node's children extends the history by one round, provided every change but creates has been carried out |
| Flood.FormerParentIsDone | lab6/compute_node.c:127-141 | If two requests reach a process through different parents, the older parent has passed the older one on, so no request overtakes another, creates still under way notwithstanding |
| Flood.LocalKeepsInv | lab6/control_node.c:411-455 | Steps the control node carries out on its own slots extend the history without a flood |
| Answers.DeliverReply | lab6/compute_node.c:105-125 | A delivery writes a reply exactly when the process is the acting node or a leaf, and the reply says which |
| Counting.NotFoundBound | lab6/control_node.c:171-178 | A flood draws at most (n+1)/2 "not found" replies, and strictly fewer if its target is in the tree |
| Counting.NotFoundExact | lab6/compute_node.c:119-125 | A finished flood without a target has drawn exactly (n+1)/2 "not found" replies |
| Counting.NotFoundLeaves | lab6/compute_node.c:119-125 | A finished flood with a target has drawn "not found" from exactly the leaves outside the target's subtree |
| Counting.NotFoundCount | lab6/compute_node.c:119-125 | That is as many as the recursive pass over the heap counts leaves outside the target's subtree |
| Counting.OneAnswer | lab6/compute_node.c:112-118 | A request never draws two answers other than "not found", and the one it draws is the acting node's |
| Counting.LeafUnder | lab6/compute_node.c:119-125 | Every subtree of the heap has a leaf, so an acting node always swallows one answer |
| AnswerOrder.TargetAnswers | lab6/control_node.c:457-478 | A request of any command whose target is in the flooded layout: whichever answers have come in, in whatever order, "not found" never uses the counter up, and the first other answer, the target's, alone decides the request and closes it |
| AnswerOrder.TargetHasAnswered | lab6/compute_node.c:105-118 | Once the target has seen the request and every answer has come in, the target's is among them |
| AnswerOrder.TargetReported | lab6/control_node.c:317-392 | For an exec and for a create the deciding answer makes one report, of that id |
| AnswerOrder.OnlyNegatives | lab6/control_node.c:317-392 | With nothing but "not found", for any command, nothing is reported before the answer that uses up the counter, and that one makes the one report |
| AnswerOrder.LateAnswersIgnored | lab6/control_node.c:457-478 | Answers of a closed request, of any command, change nothing |
| AnswerOrder.AbsentTarget | lab6/control_node.c:171-178 | For a finished flood of any command that nobody acts on, in every order of its answers, the failure is reported with the last of them if and only if the array has as many leaves as the flooded layout; with more leaves the request stays open |
| AnswerOrder.UnansweredCreate | lab6/control_node.c:196-206 | A create that no node acts on, its parent taken from the array: the flooded network is at least two entries short, fewer answers come than are counted, and in every order of them nothing is reported and the request stays open |
| AnswerOrder.UnansweredExec | lab6/control_node.c:273-297 | An exec that no node acts on is reported, with the last answer in every order, if and only if its target is the only entry the network lacks and the array has an even size; otherwise it stays open |
| LateCommands.LateExec | lab6/control_node.c:273-297 | In any state of the system in which the last step of a removal has been carried out and its answer is on the way, an exec of the removed node draws n/2 answers and counts (n+1)/2; it is reported with the last of them if n is even, and never ends if n is odd, whatever replies come in whatever order |
| LateCommands.LateCreate | lab6/control_node.c:180-206 | In any such state a create whose parent would be the removed node draws n/2 answers, counts (n+2)/2, and never ends |
| LateCommands.Reached | lab6/control_node.c:208-271 | Such a state is reached by a run from the start for every size and entry whose last removal step is sent to a node |
| LateCommands.ExecHangs | lab6/control_node.c:171-178 | A run to five entries and the removal of the last: an exec of it counts three answers, gets two, and never ends |
| LateCommands.CreateHangs | lab6/control_node.c:171-178 | A run to seven entries and the removal of entry 3: a create then counts four answers, gets three, and never ends |
| HeapWalk.WalkCovers | lab6/structures/mq_node.c:83-88 | Passing a message on to children 2k+1 and 2k+2 from the root meets each index below the size exactly once |
| HeapWalk.LeafTotal | lab6/control_node.c:176 | The heap of m nodes has exactly (m+1)/2 leaves |
| HeapWalk.OutsideFromRoot | lab6/compute_node.c:119-125 | If entry a acts, the "not found" answers are the (m+1)/2 leaves less the at least one below a |
| Phases.Step0 | lab6/control_node.c:225-267 | In the first phase of a removal the ping's target acts and nothing changes |
| Phases.Step1 | lab6/control_node.c:225-267 | Disconnecting the last node leads from the first shape to the second |
| Phases.Step2 | lab6/control_node.c:225-267 | Removing the node leaves a hole and its disconnected children |
| Shapes.StepLeadsOn | lab6/control_node.c:225-267 | In every intermediate shape of either script the acting node is there and reachable by an intact flood, and its action leads to the next shape |
| Shapes.ShapeBegins | lab6/control_node.c:208-224 | A mirrored network is the first shape of the script |
| Shapes.ShapeEnds | lab6/control_node.c:225-267 | The last shape mirrors the array with the hole filled by the last entry |
| Shapes.CreateLeadsOn | lab6/control_node.c:394-409 | A create request for a freshly started process leads to the network that mirrors the longer array |
| Shapes.ExecLeadsOn | lab6/compute_node.c:153-200 | An exec request finds its target and leaves the network as it is |
| Scripts.ScriptHoldsSteps | lab6/control_node.c:225-267 | Skipping the NULLs of the commands done always lands on the words of the current step, whatever NULLs absent children leave further on |
| Controller.RecRemoveSpends | lab6/control_node.c:337-386 | Each round of the mutual recursion of rec_remove and push_next_remove uses up one script command |
| Controller.PushNextSpends | lab6/control_node.c:411-455 | Sending or carrying out a command uses up at most one more request number than script commands |
| RmList.XorCancels | lab6/structures/rm_list.c:3-13 | Either neighbour's address comes back out of the exclusive or |
| RmList.InsertRing | lab6/structures/rm_list.c:64-83 | The three link words written between two neighbours keep every cell the exclusive or of its neighbours |
| RmList.RemoveRing | lab6/structures/rm_list.c:85-96 | The two link words written around a cell keep every remaining cell the exclusive or of its neighbours, also when both are the barrier |
| RmList.RmList.constructor | lab6/structures/rm_list.c:15-19 | The empty list is the barrier alone |
| RmList.RmList.Begin | lab6/structures/rm_list.c:30-36 | The iterator stands at item 0, or at the end of an empty list |
| RmList.RmList.End | lab6/structures/rm_list.c:38-44 | The iterator stands behind the last item |
| RmList.RmList.MoveNext | lab6/structures/rm_list.c:50-54 | The iterator goes one place on around the ring |
| RmList.RmList.Get | lab6/structures/rm_list.c:56-58 | The item the iterator stands at |
| RmList.RmList.Set | lab6/structures/rm_list.c:60-62 | Exactly that item is replaced |
| RmList.RmList.InsertBefore | lab6/structures/rm_list.c:64-83 | The item sequence gains the value at the iterator's position, the iterator keeps standing at its item; sizes 0 and 1 included |
| RmList.RmList.Remove | lab6/structures/rm_list.c:85-96 | The item sequence loses the item at the iterator's position, the iterator stands at its successor, the cell is freed |
| RmList.RmList.Collect | lab6/control_node.c:343-355 | Walking from begin to end ends and meets every item once, in order |
| RmList.RmList.Destroy | lab6/structures/rm_list.c:20-25 | Removing at the front until begin meets end empties the list |
| BalancedTree.GrowthIsAmortized | lab6/structures/balanced_tree.c:18-69 | Over any run of adds and removes the size fits the pool, the pool is 0 or 4·2^k, and growing has moved fewer than two elements per add |
| BalancedTree.BTree.SetSize | lab6/structures/balanced_tree.c:18-38 | The surviving elements stay, the pool grows once or shrinks exactly as the code says, and the elements fit the pool if and only if one doubling is enough |
| BalancedTree.BTree.Add | lab6/structures/balanced_tree.c:40-44 | The contents gain the element at the end |
| BalancedTree.BTree.Remove | lab6/structures/balanced_tree.c:54-69 | The last element fills the hole; an absent id still costs the last element |
| BalancedTree.BTree.Find | lab6/structures/balanced_tree.c:71-80 | The first entry with the id, or the node that stands for none |
| BalancedTree.BTree.GetParent | lab6/structures/balanced_tree.c:82-93 | The entry at (i-1)/2, none for the root or an unknown id |
| BalancedTree.BTree.GetLeft | lab6/structures/balanced_tree.c:95-105 | The entry at 2i+1 if the array reaches that far |
| BalancedTree.BTree.GetRight | lab6/structures/balanced_tree.c:107-117 | The entry at 2i+2 if the array reaches that far |
| BalancedTree.BTree.LastElemParent | lab6/structures/balanced_tree.c:46-48 | The parent of the last entry |
| ComputeNode.MqNode.constructor | lab6/structures/mq_node.c:6-15 | Both slots empty, an id being -1 exactly when its sockets are NULL |
| ComputeNode.MqNode.Connect | lab6/structures/mq_node.c:23-41 | The left slot is filled first, then the right, a third child is dropped |
| ComputeNode.MqNode.Close | lab6/structures/mq_node.c:93-112 | Exactly the slot with that id is emptied |
| ComputeNode.MqNode.Destroy | lab6/structures/mq_node.c:113-126 | Both slots are emptied |
| ComputeNode.MqNode.PushAll | lab6/structures/mq_node.c:83-88 | The message goes to the left and then the right child, where there is one |
| ComputeNode.ComputeNode.PushNext | lab6/compute_node.c:119-125 | Passed on to the children, or answered "not found" by a leaf |
| ComputeNode.ComputeNode.CmdConnect | lab6/compute_node.c:127-141 | The parent attaches the child and answers, the child itself stays silent, everybody else passes the request on |
| ComputeNode.ComputeNode.CmdRemove | lab6/compute_node.c:142-152 | The node itself answers and exits, everybody else passes the request on |
| ComputeNode.ComputeNode.CmdDisconnect | lab6/compute_node.c:210-220 | The node that has the child drops it and answers, everybody else passes the request on |
| ComputeNode.ComputeNode.Handle | lab6/compute_node.c:53-68 | Every command has exactly the effect the value-level reaction prescribes |
| ComputeNode.ComputeNode.OnPing | lab6/compute_node.c:76-83 | A ping is answered with one pong of the node and passed on to both children |
| ControlNode.ControlNode.constructor | lab6/control_node.c:64-80 | The controller starts with itself as the only entry of the array and no script, counter or child |
| ControlNode.ControlNode.CreateNode | lab6/control_node.c:180-206 | The objects end in exactly the state the create command has on values |
| ControlNode.FindStart | lab6/control_node.c:344-350 | The loop over the flat array finds the start of the current command |
| ControlNode.ControlNode.Scan | lab6/control_node.c:343-355 | The search over the circular list finds the first script that waits for this answer, or reports the end |
| ControlNode.ControlNode.BuildScript | lab6/control_node.c:208-267 | The script built from the array is the one the value-level controller uses |
| ControlNode.ControlNode.RemoveNode | lab6/control_node.c:208-271 | The objects end in exactly the state the remove command has on values |
| ControlNode.ControlNode.PushNextRemove | lab6/control_node.c:411-455 | Sending a script's command, or carrying it out on the control node, agrees with the value level |
| ControlNode.ControlNode.RecRemoveAnswer | lab6/control_node.c:337-386 | Advancing, completing or giving up a script on the linked list agrees with the value level |
| ControlNode.ControlNode.Receive | lab6/control_node.c:457-478 | Taking in a reply agrees with the value level |
| TreeObjects.AnswerExpected | lab6/control_node.c:337-355 | In every reachable state a script waits for each answer that does more than count, so the search over the list never comes to its end |
| TreeObjects.Serve | lab6/control_node.c:457-478 | In every reachable state any command the run allows and any pending reply may be handed to the objects, and they end where the run ends |
| NodeObjects.RequestsAreServed | lab6/compute_node.c:126-141 | In every reachable state the oldest request of any process is about real nodes and ports, and the process either acts on it or passes it on: none is left without an answer by a node that is told about itself |
| NodeObjects.Serve | lab6/compute_node.c:49-64 | In every reachable state a compute node object handed its process's oldest request is left with the child slots, has written the reply and has sent the messages of the run's own step, and has exited exactly if the process is gone |
| ControllerRecords.RegisteredAtZero | lab6/control_node.c:328-334 | Over any run every registered node has a counter of zero for the heartbeat to start from |
| ControllerRecords.FailedCreateUndone | lab6/control_node.c:324-327 | A create that is answered with an error leaves the array, the registered nodes and the open requests as they were before the command |
| ControllerRecords.FailedRemovalGivenUp | lab6/control_node.c:337-366 | A removal one of whose commands fails, by an error or by the last "not found", loses its script and is reported; the other scripts, the array and the registered nodes stay |
| Heartbeat.Detector.Tick | lab6/control_node.c:515-518 | Every counter is raised by one, whatever order the map is gone through in |
| Heartbeat.Detector.TakePongs | lab6/control_node.c:498-510 | Exactly the registered nodes that answered are set back to zero |
| Heartbeat.Detector.Report | lab6/control_node.c:527-532 | Exactly the nodes whose counter reads four are reported |
| Heartbeat.Detector.Round | lab6/control_node.c:511-533 | One round: all counters raised, those of answering nodes cleared, those at four reported |
| Heartbeat.CountersAreSilences | lab6/control_node.c:498-533 | Over any history of registrations, removals and rounds each counter is the length of the node's silence |
| Heartbeat.ReportedAtFour | lab6/control_node.c:527-532 | A node is reported in a round if and only if it is registered and that is its fourth silent round in a row |
| Heartbeat.OncePerOutage | lab6/control_node.c:527-532 | Between two reports of a node it was heard of, or registered anew |
| Heartbeat.OutageIsReported | lab6/control_node.c:511-533 | Four silent rounds report a registered node once, with the fourth |
| PingWave.WaveHearsEveryone | lab6/compute_node.c:76-93 | However the ping sockets are served, a ping round on a mirrored network ends within a fixed number of steps with exactly one pong of every compute node, and never has two of one |
| PingWave.RoundOfLiveTree | lab6/control_node.c:511-533 | In any reachable state with no create or removal open, such a round brings one pong of every registered node and leaves no counter raised |
| StringParser.Parse | KP/funcs/string_parser.cpp:3-18 | The loop appends exactly the bounded split of the string |
| StringParser.JoinSplit | KP/funcs/string_parser.cpp:3-18 | Joining the fields gives back the string |
| StringParser.SplitCount | KP/funcs/string_parser.cpp:3-18 | There are min(limit, separators + 1) fields, one for any limit below one |
| StringParser.SplitClean | KP/funcs/string_parser.cpp:3-18 | All fields but the last are free of the separator, and the last too if the limit was not reached |
| StringParser.SplitJoin | KP/funcs/string_parser.cpp:3-18 | Splitting the join of fields that fit the limit gives back the fields |
| Decimal.IdSurvives | KP/server/server.cpp:233 | An id printed with to_string and read with strtol is itself if and only if it is at most 2^63 - 1 |
| Decimal.WrittenByPlaces | KP/server/server.cpp:244 | A number is written with the digits 0 to 9, the sum of each digit's place times its power of ten being the number, and no zero in front |
| Decimal.ReadNumber | KP/server/server.cpp:233 | Space, a sign, digits and whatever follows are read as the number the digits stand for, held between the smallest and the largest signed long, a negative one as its complement to 2^64 |
| ChatServer.Server.CmdLogin | KP/server/server.cpp:75-96 | Refused if logged in or a reserved name, otherwise the user is added or authorized again; state and answer as specified |
| ChatServer.Server.CmdLogout | KP/server/server.cpp:98-100 | The user is no longer let in, and nothing is answered |
| ChatServer.Server.CmdPrivate | KP/server/server.cpp:102-132 | Not with oneself or a stranger; a chat is added only if there is none between the two in either order |
| ChatServer.Server.CmdCreate | KP/server/server.cpp:134-157 | A new name gives a group of the creator with a welcome message under the next id |
| ChatServer.Server.CmdJoin | KP/server/server.cpp:159-183 | A new member is added with a welcome message, an old one only gets the answer |
| ChatServer.Server.Collect | KP/server/server.cpp:235-240 | The loop yields the encoding of the messages newer than the cursor and the largest id |
| ChatServer.Server.CmdGetMsg | KP/server/server.cpp:203-246 | Answer of a poll, errors for unknown chats, undefined for an unknown kind of chat |
| ChatServer.Server.CmdPutMsg | KP/server/server.cpp:248-282 | State and answer are those of the post the specification has; ChatRequests says which list gains the message |
| ChatServer.Server.CmdChats | KP/server/server.cpp:284-321 | The loops and the sort answer with the specified list; ChatListing says what is in it |
| ChatServer.Server.RequestHandler | KP/server/server.cpp:31-73 | A raw line is taken apart and carried out exactly as the step function says, undefined where the code reads past its fields |
| ChatRequests.GroupPost | KP/server/server.cpp:248-282 | The line push_msg of a user with GROUP, the name of a group and any text adds exactly one message to the group of that name, with the user's login, the text and the next number; no other group, chat or user changes, and the answer is push_msg OK |
| ChatRequests.PrivatePost | KP/server/server.cpp:263-282 | The same with PRIVATE and the first private chat the user takes part in, whatever name is given |
| ChatRequests.PostRefused | KP/server/server.cpp:250-277 | No such group, or no private chat of the user: an error under the name of a poll and nothing changes; another kind of chat: a null pointer |
| ChatRequests.GroupPostIsRead | KP/server/server.cpp:206-282 | After a group post whoever reads the group of that name reads its old messages and then the new one, and every other list is what it was |
| ChatRequests.PrivatePostIsRead | KP/server/server.cpp:219-282 | After a private post the two users of the poster's first private chat read it there, under each other's names, and every other list is what it was |
| ChatRequests.GroupPoll | KP/server/server.cpp:203-246 | The line get_msg with GROUP is answered from the group of the name given, whoever asks |
| ChatRequests.PrivatePoll | KP/server/server.cpp:219-246 | With PRIVATE it is answered from the chat of the asker and the user named, whichever of them opened it |
| ChatRequests.PollRefused | KP/server/server.cpp:206-232 | No such group, or no chat with a user of that name: the error of a poll |
| ChatRequests.LoginLine | KP/server/server.cpp:75-96 | The line login adds a new user, lets one in again who had logged out, and refuses one who is logged in and the two reserved names |
| ChatRequests.LogoutLine | KP/server/server.cpp:98-100 | The line logout takes the user's being let in back, changes nothing else and is not answered |
| ChatRequests.SecondLogin | KP/server/server.cpp:79-81 | Whoever is logged in is refused a second time, from whatever pipe |
| ChatRequests.LoginAfterLogout | KP/server/server.cpp:75-100 | Logging out and in again leads back to the very state before |
| ChatRequests.CreateLine | KP/server/server.cpp:134-157 | The line create under a free name adds a group of its creator alone with the word of welcome under the next number; a taken name changes nothing |
| ChatRequests.JoinLine | KP/server/server.cpp:159-183 | The line join makes a newcomer the last member of the group of that name and adds the word of welcome under the next number; for a member nothing changes |
| ChatRequests.JoinedIsMember | KP/server/server.cpp:172-178 | Whoever has joined is a member, so joining again adds nothing |
| ChatRequests.PrivateLine | KP/server/server.cpp:102-132 | The line private adds an empty chat of the two users unless there is one between them in either order |
| ChatRequests.PrivateRefused | KP/server/server.cpp:105-117 | With oneself or a stranger no chat is opened |
| ChatRequests.StrangersIgnored | KP/server/server.cpp:47-50 | Whatever a user unknown to the server asks for, except to be let in, changes nothing and is not answered |
| ChatInvariants.StepKeeps | KP/server/server.cpp:31-321 | Any request the server survives, unless it needs a message id and there is none left, keeps: logins unique and none reserved, group names unique, one private chat per pair and none with oneself, members duplicate-free with the owner among them, message ids unique, rising in each chat, at most the counter; and takes back no user, chat or message |
| ChatInvariants.RunKeeps | KP/server/server.cpp:22-29 | The same over any run of fewer than 2^64 requests |
| ChatInvariants.StepKeepsExactly | KP/server/server.cpp:149-150 | At the last counter value a request keeps the invariant if and only if it adds no message: it is no create under a free name, no join by a newcomer and no post to an existing list |
| ChatInvariants.PrivatePostAddressing | KP/server/server.cpp:263-277 | A private post goes where a poll under that name reads, or is refused like it, if and only if no private chat of the sender is older than the one with the named user (none at all, if there is no such chat) |
| ChatAddressing.PostGoesAstray | KP/server/server.cpp:263-277 | A run of three logins, two private chats and one post from the empty server, after which what Ann wrote to Cid stands in her chat with Bob and not in Cid's |
| ChatWire.RequestParses | KP/client/client.cpp:145-151 | The client's request line comes apart into its command, pipe, name and arguments |
| ChatWire.PostArrives | KP/server/server.cpp:61-68 | A post's text arrives unchanged whatever characters it has, through both nested splits |
| ChatWire.PollArrives | KP/server/server.cpp:61-68 | A poll's kind, chat and cursor arrive unchanged |
| ChatWire.ResponseParses | KP/client/client.cpp:38-44 | The server's answer comes apart into command, status and arguments |
| ChatWire.PollAnswerParses | KP/client/client.cpp:186-190 | The cursor and the messages of a poll's answer come apart again, with no messages as well |
| ChatWire.MessagesShown | KP/messenger.cpp:58-77 | Encoding messages without separators, answering, splitting and printing shows exactly them, empty texts included |
| ChatWire.PrintMessages | KP/messenger.cpp:58-77 | The print loop shows the fields alternately as author and text |
| ChatWire.ChatFields | KP/messenger.cpp:78-88 | The chat-list loop yields all the fields |
| ChatClient.Client.Request | KP/client/client.cpp:145-151 | The line sent, under a reserved name before logging in |
| ChatClient.Client.UpdateChat | KP/client/client.cpp:32-36 | The poll sent asks for the current chat from the given id |
| ChatClient.Client.CmdLogin | KP/client/client.cpp:61-77 | Refused when logged in, for a name of fewer than 2 or more than 20 characters and for one with a separator; otherwise the login is taken over and sent |
| ChatClient.Client.CmdLogout | KP/client/client.cpp:79-87 | The client asks to be logged out under its login and is logged out at once |
| ChatClient.Client.CmdCreate | KP/client/client.cpp:105-120 | As for a login, but the name is only sent |
| ChatClient.Client.CmdPush | KP/client/client.cpp:122-139 | The line sent and the messages printed are the specified ones; ChatSession says what the server makes of the line |
| ChatClient.Client.RecEnter | KP/client/client.cpp:158-177 | Entering a chat resets the cursor to 0 |
| ChatClient.Client.RecGetMsg | KP/client/client.cpp:186-194 | The cursor is taken over; nothing is printed for no messages |
| ChatClient.Client.AnswerHandler | KP/client/client.cpp:38-59 | Every readable answer has the effect specified for it |
| ChatSession.PushServed | KP/client/client.cpp:122-139 | A client inside a chat that pushes a text without separator sends exactly one line, on which the server adds the text, cut at 2048 characters, under the client's login and the next number to the client's group if it is in one, else to its user's first private chat |
| ChatSession.Push | KP/client/client.cpp:122-139 | The same of the two objects; a text with a separator, or a client not logged in, leaves client line, server and answers as they were |
| ChatSession.LogIn | KP/client/client.cpp:61-77 | From the command to the answer read: the server lets the user in and the client is in the main menu under that login if and only if nobody is logged in under it and it is not reserved; otherwise nothing changes but an error shown |
| ChatSession.LogOut | KP/client/client.cpp:79-87 | The line logs the client's user out at the server without an answer, after which the same login may log in |
| ChatSession.CreateAnswered | KP/client/client.cpp:105-120 | Creating a group under a free name, answer read, leaves the client in it with cursor 0 |
| ChatSession.JoinAnswered | KP/client/client.cpp:89-95 | Joining, answer read, makes the client's user a member and leaves the client in the group with cursor 0, or, if there is none of that name, where it was with an error shown |
| ChatSession.PrivateAnswered | KP/client/client.cpp:97-103 | Opening a private chat, answer read, leaves the client in it with cursor 0, and the server has a chat of the two |
| ChatSession.CreateThenWrite | KP/client/client.cpp:105-139 | A client that creates a group and pushes a text: the server has a new group of its user alone with the word of welcome and then the text |
| ChatSession.PollServed | KP/client/client.cpp:32-36 | A poll carries kind, chat and cursor and is answered from the chat the client looks at |
| ChatSession.ListShown | KP/client/client.cpp:141-143 | Asking for the chats shows nothing if there are none, else a text whose rows name and describe each of them |
| ChatPolling.AnswersAreReadable | KP/server/server.cpp:31-73 | Whatever is asked, every answer of the server has the fields its reader indexes |
| ChatPolling.CursorSplits | KP/server/server.cpp:233-245 | What is newer than a cursor is exactly the rest of the chat after what is not |
| ChatPolling.PollKeepsFollowing | KP/client/client.cpp:186-194 | A poll always succeeds and leaves the client with the whole chat, encoded and shown |
| ChatPolling.OtherKeepsFollowing | KP/server/server.cpp:31-73 | Any other request, the client's own included, whose answer neither lets it in anywhere nor answers a poll leaves what the client has got a prefix of the chat, whatever else it prints |
| ChatPolling.OthersStay | KP/client/client.cpp:38-59 | Requests that do not name the client's pipe are of that kind, since every answer goes to the pipe its request names |
| ChatPolling.OwnRequestsStay | KP/client/client.cpp:122-139 | So are the client's own posts and its asking for its chats |
| ChatPolling.PollingShowsChatOnce | KP/server/server.cpp:233-245 | From entering a chat on, under any interleaving of polls with any requests of anybody and any of its own that leave it there, all answers read, the poll answers put together are the encoded chat up to the cursor and the screen shows exactly those messages, once and in order, if none of them holds a separator; after a poll, the whole chat |
| ChatPolling.LetIn | KP/client/client.cpp:158-177 | Whoever asks to join, create or open a chat is either refused, for one of the three reasons the server has, and stays where it was, or stands in that chat with cursor 0 |
| ChatPolling.OpeningShowsChatOnce | KP/server/server.cpp:102-183 | The same from the request on that opens the chat, whatever was on the screen before |
| ChatListing.KeyOrderExactly | KP/server/server.cpp:297 | The int keys order all ids up to n newest first if and only if n is at most 2^31 |
| ChatListing.SortSorts | KP/server/server.cpp:314 | The sort yields all the lines in the order of their keys |
| ChatListing.SmallerByFirstDifference | KP/server/server.cpp:314 | Under equal keys the texts are compared at the first place where they differ, or by where one ends |
| ChatListing.ChatsListedInOrder | KP/server/server.cpp:284-321 | Up to 2^31 messages the answer lists exactly the user's non-empty chats, each once, strictly by descending last id, and the fields of every one come back from the text |
| ChatListing.RowLeadsBack | KP/server/server.cpp:287-312 | Under the kind and the name in the row of a listed chat that very chat is read; the name of a private chat is the login of its other user |
| ChatListing.ChatListArrives | KP/server/server.cpp:284-321 | From the line chats to the rows shown: each of the user's non-empty chats has one row, by descending last id, with its kind, the other user's login or the group's name, and the author and text of its last message |
| ChatListing.NewestListedLast | KP/server/server.cpp:284-321 | A run of the server after which the group opened last and written to last is listed behind one silent since the first message |
| HexCodec.DigitSurvives | lab3/string_utils.c:3-17 | A character survives reading and writing exactly when it is an upper-case hexadecimal digit |
| HexCodec.DigitPlaces | lab3/string_utils.c:3-17 | The digit at place i of 0123456789ABCDEF is read as i, and i is written as it |
| HexCodec.OrFillsGap | lab3/string_utils.c:19-28 | Or-ing a number into clear low bits adds it |
| HexCodec.HexToInt128 | lab3/string_utils.c:19-28 | The shift and or loop yields the sum over k of 16^(31-k) times the place of digit k in 0123456789ABCDEF, without losing a bit |
| HexCodec.Int128ToHex | lab3/string_utils.c:30-36 | The mask and shift loop writes for each k the digit of 0123456789ABCDEF for 16^(31-k), and nothing else |
| HexCodec.ValueIsPlaceSum | lab3/string_utils.c:19-28 | The value read is the sum over the digits of 16 to the number of digits behind times the digit's place in 0123456789ABCDEF |
| HexCodec.WrittenByPlace | lab3/string_utils.c:30-36 | Character k written is the digit whose place is the number divided by 16^(31-k), modulo 16 |
| HexCodec.CodecIsBijection | lab3/string_utils.c:3-36 | Reading the digits written gives the number; writing the number read gives the 32 characters if and only if all are in 0-9A-F |
| ParallelMean.ChunksHoldRecords | lab3/main.c:48-52 | The chunk size is the largest whole number of records that fits, zero exactly when not even one does |
| ParallelMean.Digest | lab3/main.c:92-97 | The inner loop folds the records of a chunk into the running mean one after the other, and leaves the range of its int offset if and only if the chunk has 2147483712 bytes or more |
| ParallelMean.AbsorbAddsUp | lab3/main.c:95-96 | Running mean times count is the sum so far plus the new record |
| ParallelMean.StepKeeps | lab3/main.c:85-103 | As long as no read can return 2147483712 bytes, any thread's next step is defined and keeps: what the threads hold, taken and pending, is exactly the records read so far |
| ParallelMean.Combine | lab3/main.c:66-74 | The two final loops yield the total count and the weighted sum |
| ParallelMean.MeanIgnoresSchedule | lab3/main.c:54-103 | For any number of threads and any schedule of locked reads the threads take at most 2·threads + length steps; when no step is left, every record has gone into exactly one thread's mean with no step undefined if and only if the first read, the least of chunk and file, is shorter than 2147483712 bytes, and then the weighted combination is the sum of the records over their number |
| FileMean.MeanOfNumbers | lab3/main.c:54-103 | For a file whose lines are any numbers below 2^128 in 32 hexadecimal digits: whatever the threads, chunks and schedule, once all threads have ended the means put together are the sum of the numbers over how many there are, if no read returns 2147483712 bytes or more |
| ParallelMean.LongReadsLose | lab3/main.c:90-93 | If a read can be that long, a definite record of the first one goes into nobody's mean, whatever the schedule |
| ParallelMean.LongReadsCrash | lab3/main.c:93 | If the first read is that long and shorter than 2^32 bytes, every schedule that ends does so with an undefined offset |
| ParallelMean.SmallestLongRead | lab3/main.c:48-52 | One thread, and room and file for 65075264 records: the offset of the last record leaves int |
| ParallelMean.HugeChunkTakesNothing | lab3/main.c:66-97 | A file of 130150525 records read as one chunk of 4294967325 bytes: the count becomes 29, no record is ever taken, and the count divided by at the end is zero |

## Left out

- Commands during a removal: a run's creates and execs wait for a removal to end, and a removal for everything, while the program does not wait. LateCommands has what becomes of an exec of the removed node and of a create below it when only the last answer is missing.
- Crashed nodes, lost messages and failing allocation: a dead node sends nothing, so the counter argument does not apply to it.
- A reply that is still on its way when its relay exits may be lost; such late replies are ignored by the controller, so receiving them stands for both.
- The values kept by `exec` in each node: its answer is OK or an error, as an input of the step.
- ZeroMQ sockets, fork, kill, waitpid and threads of lab6: ports, inboxes, and a pid and a list cell's address given from outside.
- Request uuids are serial numbers; the controller's own steps use one up too.
- The hash maps of lab6 are maps; putting a key again replaces its value.
- Iterators of the circular list do not carry the pointer to their list.
- BalancedTree.BTree.SetSize: allocation always succeeds.
- ControlNode.ControlNode.RemoveNode: requires ids, pids and ports to be distinct, which every run keeps (TreeObjects.Serve).
- ControlNode.ControlNode.RecRemoveAnswer: requires a script that waits for the answer, where the code would go on with the end of the list; every run has one (TreeObjects.AnswerExpected). The value-level Controller.RecRemove has the case.
- ControlNode.ControlNode.Receive: the same for the reply to a removal's request.
- TreeTheorems.RunRefinesArray: assumes every forked process has a pid other than the controller's and -1.
- Heartbeat timing: which pongs arrive within a round is an input.
- Timestamps of messages, FIFO pipes and the newline that ends a line on them; text is characters, not bytes.
- The client's terminal interface, and two polls in flight at once.
- ChatPolling.PollingShowsChatOnce: the other requests must be ones the server survives and that leave the client in its chat, nobody else may poll in its name, and no more than 2^63 - 1 message ids may be used up.
- Group membership is not checked by the code for posts and polls, and nothing is claimed about it.
- HexCodec.Int128ToHex: the terminator that the code writes past the 33-byte buffer is not modelled.
- ParallelMean.MeanIgnoresSchedule: exact real arithmetic instead of long double; allocation succeeds, and a read returns all there is up to the chunk size; without any record the program divides by zero, and no mean is claimed.
- Argument parsing of lab3, and lab2, lab4 and lab5.
