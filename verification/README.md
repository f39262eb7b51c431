# A verified model of the TCP server library

The library has four parts with logic of their own, and each is modelled here:

* **the timer wheel** (`libtimer/WheelTimer.cpp`, `libtimer/gluethread/`): a clock of slots and
  cycles, a sorted intrusive list per slot, and a queue of create, reschedule and delete requests
  that each tick adopts;
* **message demarcation** (`ByteCircularBuffer.cpp`, `TcpMsg*Demarcar.cpp`): a byte ring into which
  a socket writes, and the flush loops that cut messages out of it;
* **the command line** (`CommandParser/`): a cursor in a command tree, a checkpointed buffer of
  TLVs, and the lines that move them;
* **the POSIX timer wrapper** (`libtimer/timerlib.cpp`): exponential back-off, thresholds, pause
  and resume.

Each part is built the same way. A value model says what every operation does to the state. The
laws of the part are lemmas about whole runs of that value model. A class with the program's fields
and loops is proved against the model: every method's postcondition equates its new state with the
model's function of the old state.

| file | what it holds |
|---|---|
| `Sequences.dfy`, `Arithmetic.dfy` | sequences without duplicates, quotients and remainders |
| `TimerApi.dfy`, `Layout.dfy`, `WheelModel.dfy` | requests and callbacks, slot lists, the wheel as a value |
| `FlatSchedule.dfy` | the specification: one list of elements with due ticks, no slots and no early break |
| `WheelRefinement.dfy`, `TimingLaws.dfy` | the wheel against the flat schedule, and when elements fire |
| `RequestLaws.dfy` | what calls of the application, and of its callbacks, bring about |
| `GlThread.dfy`, `WheelTimer.dfy` | the linked lists and the wheel timer as objects |
| `ByteCircularBuffer.dfy`, `Framing.dfy`, `Demarcar.dfy` | the ring, the framing laws, the demarcars as objects |
| `CliTree.dfy`, `CliModel.dfy` | the command tree, and one line as a step of a state machine |
| `CliDelivery.dfy`, `Decimals.dfy` | what each line does, told from its words; command codes as text |
| `CliRegistration.dfy` | the trees that registration can build, and that what is registered can be typed |
| `CliLaws.dfy`, `CliBounds.dfy` | what lines keep |
| `CliModes.dfy`, `CliDo.dfy` | what modes are for, and `do` |
| `CliNested.dfy`, `CliDepth.dfy` | lines that have one further line parsed, and lines that have lines parsed to any depth |
| `CliSample.dfy` | a small tree with the lines that break the rules |
| `Serialize.dfy`, `CommandParser.dfy` | the TLV buffer and the parser as objects |
| `TimerLib.dfy`, `TimerLibLaws.dfy`, `PosixTimer.dfy` | the POSIX timer wrapper as a value, when its timers expire, and the timer object |

## Where the code falls short of what it is for

Several properties one would expect hold only under a condition; each is proved as an equivalence, or
with an input that shows the failure.

* `config /` runs the handler of `config` a second time, behind the command code: the checkpoint
  then keeps that code in the buffer, and every command in the mode gets one TLV too many.
  `CliLaws.EveryLineKeepsInv` says that among the lines that have no further line parsed, those of
  this kind (`/` or the `brief` extension right behind `config`) are the only ones that break the
  invariant; `CliSample.ConfigSlashBreaksTheMode` shows one.
* `show history` has a line parsed from inside its handler, behind its own command code. If that line
  enters a mode, or is `cd..` at a leaf, the buffer is spoiled, and inside a `do` a `cd..` ends the
  program. `CliNested.FedLineKeepsInv`, `FedLineInDo` and `FedLineInDoMode` say exactly when;
  `CliSample.HistoryBreaksTheMode` and `HistoryEndsTheProgram` show it.
* A unit test script ends the program as soon as a line of it is not complete, and so does one that
  cannot be opened: the runner asserts both (`CommandParser/ut/utinfra/ut_parser.c:153` and `:267`). `CliDepth.ScriptIsTyping` and
  `CliNested.FedLineKeepsInv` say exactly when; `CliSample.ScriptEndsTheProgram` shows it.
* A callback of the wheel timer that deregisters its own element blocks for ever on the element's
  mutex, which the tick holds around the callback (`libtimer/WheelTimer.cpp:141`, `libtimer/WheelTimer.h:65`). The laws
  of the wheel are about runs without such a callback.
* A `no` typed before `/` is forgotten in the mode: `CliModes.ModesAreTransparent` says exactly when a
  handler can tell, `CliSample.NegationIsLost` shows one.
* A frame that is a header only waits for the next byte (`Framing.PromptExactlyWithPayload`), and a
  length field of 0 keeps the flush loop going for ever (`Framing.LivelockExactly`).
* The back-off time of a POSIX timer doubles only as long as it fits an unsigned long
  (`TimerLibLaws.BackOffTimes`). Once it has wrapped around to zero, the timer is never cancelled by its
  threshold (`TimerLibLaws.BackOffThreshold`, and `LargeThresholdNeverCancels` for every threshold of 64
  or more), and pause and resume lead into a failing assertion (`TimerLib.BadResumeFails`,
  `TimerLib.ResumeAfterOverflowFails`).
* A threshold of 4294967295 never stops a periodic timer (`TimerLibLaws.PeriodicThreshold`).

## Model

| member | source | states |
|---|---|---|
| WheelRefinement.WheelRefinesFlat | libtimer/WheelTimer.cpp:112-181 | after every run of ticks, calls and callbacks the wheel of any size holds the same requests, trace and due ticks, in the same order per tick, as a schedule without slots, cycles or early break |
| WheelRefinement.WheelSizeIndependence | libtimer/WheelTimer.cpp:76-80 | two wheels of different sizes fire the same elements at the same ticks in the same order, for the same application and the same run |
| WheelRefinement.DoTickInStep | libtimer/WheelTimer.cpp:112-181 | one tick of the wheel and one tick of the flat schedule lead from agreeing states to agreeing states |
| WheelModel.InitOk | libtimer/WheelTimer.cpp:183-211 | a new wheel satisfies the wheel invariant |
| WheelModel.StepOk | libtimer/WheelTimer.cpp:112-181 | every tick and every API call keeps the invariant: slots sorted by cycle, each element in one slot only and in the one it stores, nothing scheduled in the past, every pending request legal and queued once |
| WheelModel.RunOk | libtimer/WheelTimer.cpp:112-181 | and so does every run |
| WheelModel.DoTickOk | libtimer/WheelTimer.cpp:180-180 | a tick moves the clock by one and leaves no request waiting |
| WheelModel.FiringList | libtimer/WheelTimer.cpp:133-179 | the elements the loop reaches before its break are exactly those of the slot that are due at this tick, and nothing else in any slot is due |
| WheelModel.NextToFire | libtimer/WheelTimer.cpp:151-173 | relinking the element just fired, even into the list being walked, leaves the rest of this tick's firings as they were |
| WheelModel.SecondInSlot | libtimer/gluethread/glthread.h:68-81 | the node the iteration macro saved before the body ran is the next to fire, or one of another cycle, which it still is after the callback |
| WheelModel.DrainOk | libtimer/WheelTimer.cpp:49-110 | draining the reschedule list keeps the invariant and empties the list |
| WheelModel.LinkedLast | libtimer/gluethread/glthread.cpp:139-187 | an element linked into its slot comes last among those due at the same tick, and the elements due at other ticks keep their order |
| Layouts.ThisCycleIsDueNow | libtimer/WheelTimer.cpp:137-178 | in a slot sorted by cycle with nothing in the past, the prefix of the current cycle is the set of elements due now |
| Layouts.RelinkOk | libtimer/WheelTimer.cpp:156-173 | relinking keeps every slot sorted, free of duplicates and in the future |
| Layouts.RelinkAgree | libtimer/WheelTimer.cpp:156-173 | relinking in the slots and rebooking in the flat list keep, for every due tick, the same elements in the same order |
| Layouts.InsertSorted | libtimer/gluethread/glthread.cpp:139-187 | inserting behind the elements of the same cycle keeps a slot sorted |
| TimerApi.PostOk | libtimer/WheelTimer.cpp:214-298 | a register, reschedule or deregister call leaves every element with exactly one place in the request queue when it has a request, and fires nothing |
| RequestLaws.PostMeans | libtimer/WheelTimer.cpp:214-298 | after a call the element has the opcode and interval asked for, keeps the interval in use and its recurrence flag, and is the head of the queue, the others following in their order; every other element is unchanged |
| TimerApi.CallbackOk | libtimer/WheelTimer.cpp:141-146 | a callback with any calls it makes adds its own firing to the trace, frees nothing, and changes no interval in use |
| RequestLaws.CallbackMeans | libtimer/WheelTimer.cpp:141-142 | a call made by a callback is served as one made between ticks is |
| RequestLaws.LastCallDecides | libtimer/WheelTimer.cpp:214-240 | of any calls, the last legal one about an element decides opcode and interval, and the element waits |
| RequestLaws.OthersCalls | libtimer/WheelTimer.cpp:214-240 | calls about other elements leave it and its place among the waiting ones as they were |
| RequestLaws.RegisterCalls | libtimer/WheelTimer.cpp:243-276 | each legal register call among any calls gets the next element, which waits to be created with its interval unless a later call is about it |
| RequestLaws.TickServes | libtimer/WheelTimer.cpp:133-180 | a tick serves all calls of all its callbacks, in the order they are made, before it adopts any |
| TimerApi.AdoptOk | libtimer/WheelTimer.cpp:69-106 | adopting a request frees a deleted element and gives any other a legal interval |
| FlatSchedule.FiredMoves | libtimer/WheelTimer.cpp:149-173 | a tick moves exactly the elements due at it: a recurring one by its interval, a one-shot off the schedule; no other is touched |
| FlatSchedule.RebookedLast | libtimer/WheelTimer.cpp:156-167 | an element that is scheduled comes last among those due at the same tick |
| FlatSchedule.DrainOrder | libtimer/WheelTimer.cpp:63-107 | adoption puts the waiting elements behind the others due at the same tick, the latest request first |
| TimingLaws.WheelTickFiresTheDue | libtimer/WheelTimer.cpp:133-179 | one tick fires exactly the linked elements whose cycle and slot are the current ones, once each |
| TimingLaws.WheelAdopts | libtimer/WheelTimer.cpp:63-107 | a tick puts an element with a waiting create or reschedule at its new interval from now, and unlinks and frees a deleted one |
| TimingLaws.AdoptedElementFires | libtimer/WheelTimer.cpp:69-96 | adopted at tick a with k ticks, an element fires at a+k, and a recurring one at a+2k, a+3k, ..., once each and at no other tick, up to and including the tick that adopts another request, whenever that was made |
| TimingLaws.AdoptedDeleteNeverFires | libtimer/WheelTimer.cpp:97-101 | after the tick that adopts a delete the element never fires again, whatever is called |
| TimingLaws.RequestedElementFires | libtimer/WheelTimer.cpp:49-181 | the same from the start of the program, after any events before the request and through any after it |
| TimingLaws.DeletedElementIsSilent | libtimer/WheelTimer.cpp:97-101 | a delete adopted after any events is final, whatever comes after it |
| RequestLaws.RegisteredElementFires | libtimer/WheelTimer.cpp:243-276 | registered after any events with an interval of k ticks, an element fires k ticks after the next tick a, and if it recurs at a+2k, a+3k, ..., once each and never else, unless a callback of that tick asks for something else |
| RequestLaws.RescheduledElementFires | libtimer/WheelTimer.cpp:285-298 | the same for an element rescheduled to k ticks, whatever it was doing |
| RequestLaws.DeregisteredElementIsSilent | libtimer/WheelTimer.cpp:278-283 | a deregistered element never fires again after the next tick, whatever is called later |
| RequestLaws.AskedElementFires | libtimer/WheelTimer.cpp:141-180 | rescheduled to k ticks by a callback run in tick a, an element fires next at a+k, and if it recurs at a+2k and so on |
| RequestLaws.AskedElementIsSilent | libtimer/WheelTimer.cpp:141-180 | deregistered by a callback, an element never fires again after that tick |
| TimingLaws.FiringTimes | libtimer/WheelTimer.cpp:112-181 | the firing times of an element over any run, up to and including the tick that adopts a request about it, and the past of the trace unchanged |
| TimingLaws.DrainMoves | libtimer/WheelTimer.cpp:63-107 | what the drain does to an element with a request, and that it leaves all others as they were |
| TimingLaws.ReachedInStep | libtimer/WheelTimer.cpp:112-211 | every wheel an application can bring about has a flat schedule in step with it, so the laws above hold of it |
| TimingLaws.RemainingTime | libtimer/WheelTimer.cpp:300-315 | the remaining time is at least one tick interval, drops by one per tick, and is the full interval again after a recurring firing |
| RequestLaws.RemainingWhileWaiting | libtimer/WheelTimer.cpp:303-309 | between a create or reschedule and its adoption the remaining time is the whole new interval; a deregister call does not change it |
| GlueThread.AddNext | libtimer/gluethread/glthread.cpp:43-58 | the node is linked in right behind the given one, all links of the list being consistent |
| GlueThread.RemoveGlThread | libtimer/gluethread/glthread.cpp:76-98 | removal without the head takes out exactly that node, leaves it unlinked, and does nothing to a node on no list; removing a head leaves its members linked, the first one at their head |
| GlueThread.PriorityInsert | libtimer/gluethread/glthread.cpp:139-187 | the node comes right before the first one it compares -1 to, behind all others; the special cases for no node and one node do the same as the loop |
| GlueThread.AddLast | libtimer/gluethread/glthread.cpp:110-124 | the node becomes the last one |
| GlueThread.DequeueFirst | libtimer/gluethread/glthread.cpp:189-198 | the first node is taken out and returned, or null if there is none |
| GlueThread.DeleteList | libtimer/gluethread/glthread.cpp:100-108 | the list is emptied and every node left unlinked, although the links are cut while walking |
| GlueThread.RemoveNode | libtimer/gluethread/glthread.cpp:76-98 | the same removal, of members and of heads, among many lists over shared nodes: no other list changes |
| GlueThread.InsertNode | libtimer/gluethread/glthread.cpp:139-187 | the same insertion among many lists |
| WheelTimer.WheelTimer.constructor | libtimer/WheelTimer.cpp:183-211 | the objects built stand for the empty wheel, its tick in milliseconds whatever the resolution |
| WheelTimer.WheelTimer.LinkGlue | libtimer/WheelTimer.cpp:156-167 | setting cycle and slot and inserting into the slot list is booking the element at its due tick |
| WheelTimer.WheelTimer.UnlinkGlue | libtimer/WheelTimer.cpp:66-66 | unlinking the node is taking the element out of the slots, and nothing if it is in none |
| WheelTimer.WheelTimer.PostRequest | libtimer/WheelTimer.cpp:214-240 | fields and list changes of a request are one step of the request queue |
| WheelTimer.WheelTimer.TimerRegisterAppEvent | libtimer/WheelTimer.cpp:243-276 | a new element with its two nodes, and its create request; null without a callback |
| WheelTimer.WheelTimer.TimerReschedule | libtimer/WheelTimer.cpp:285-298 | a reschedule request, replacing one that waits |
| WheelTimer.WheelTimer.TimerDeRegisterAppEvent | libtimer/WheelTimer.cpp:278-283 | a delete request, replacing one that waits |
| WheelTimer.WheelTimer.RunCallback | libtimer/WheelTimer.cpp:141-142 | the callback, with all API calls it makes from inside the tick |
| WheelTimer.WheelTimer.FireElem | libtimer/WheelTimer.cpp:137-174 | the loop body for one element is one firing of the model |
| WheelTimer.WheelTimer.FireSlot | libtimer/WheelTimer.cpp:133-179 | the loop with its saved next pointer and early break fires all that the model fires |
| WheelTimer.WheelTimer.AdoptElem | libtimer/WheelTimer.cpp:65-106 | the loop body over the reschedule list is one adoption of the model |
| WheelTimer.WheelTimer.ProcessReschedule | libtimer/WheelTimer.cpp:49-110 | the loop drains the whole list |
| WheelTimer.WheelTimer.WheelFn | libtimer/WheelTimer.cpp:112-181 | the whole tick on the objects is the tick of the model |
| WheelTimer.WheelTimer.GetRemainingTime | libtimer/WheelTimer.cpp:300-315 | the value computed from the fields is the model's remaining time |
| ByteCircularBuffer.BCB.Write | ByteCircularBuffer.cpp:31-60 | all or nothing: a write that fits appends its bytes to the queue, in one piece or wrapped, and one that does not changes nothing and returns 0; no 16-bit overflow |
| ByteCircularBuffer.BCB.Read | ByteCircularBuffer.cpp:62-100 | the oldest bytes are copied out, and dropped if asked for; with too few bytes nothing happens and 0 is returned |
| ByteCircularBuffer.BCB.Reset | ByteCircularBuffer.cpp:108-114 | the queue is empty |
| ByteCircularBuffer.RingAppend | ByteCircularBuffer.cpp:37-59 | storing into the slots behind the waiting bytes, keeping all others, appends to the queue, for every position of front and rear |
| ByteCircularBuffer.RingDrop | ByteCircularBuffer.cpp:84-98 | moving the rear, wrapped or not, drops the oldest bytes |
| Framing.ParseSplit | TcpMsgVariableSizeDemarcar.cpp:25-53 | parsing a prefix, then its residue with the rest, is parsing the whole |
| Framing.ParseConserves | TcpMsgVariableSizeDemarcar.cpp:40-53 | the messages and the residue put together are the bytes parsed, and every message is as long as its length field says |
| Framing.ChunkingIndependence | TcpMsgDemarcar.cpp:49-60 | for any cut of the stream, messages, residue and ending are those of one greedy parse; before a failed write, a beginning of it |
| Framing.LegalRunsAreSafe | TcpMsgDemarcar.cpp:55-59 | with chunks of 1 to 1024 bytes and legal length fields no write assertion fails, no extraction overruns the scratch buffer, every flush ends, and less than 1024 bytes stay |
| Framing.RunsExactlyWhen | TcpMsgDemarcar.cpp:49-60 | a run comes through if and only if no length field stops the parse and every chunk is nonempty and fits behind the residue before it |
| Framing.ParseFrames | TcpMsgVariableSizeDemarcar.cpp:40-53 | any frames with payload, followed by an incomplete one, parse to exactly those frames |
| Framing.FramingRoundTrip | tcp_client.cpp:17-24 | any payloads, framed with a length that counts its own header and cut anywhere, are delivered exactly, in order, each behind its length, and leave the ring empty |
| Framing.PromptExactlyWithPayload | TcpMsgVariableSizeDemarcar.cpp:31-35 | a frame is delivered as soon as it is complete if and only if it has a payload |
| Framing.ZeroHeaderTurns | TcpMsgVariableSizeDemarcar.cpp:46-52 | with a length field of 0 in front, any number of rounds of the flush loop delivers that many empty messages and leaves the ring as it was |
| Framing.RoundsAreParse | TcpMsgVariableSizeDemarcar.cpp:46-52 | as many rounds of the loop's body as the greedy parse has messages deliver just those, and the loop then stands where the parse stopped |
| Framing.LivelockExactly | TcpMsgVariableSizeDemarcar.cpp:46-52 | the flush loop goes on for ever if and only if the parse of its bytes comes to a length field of 0 |
| Framing.FixedSizeDemarcation | TcpMsgFixedSizeDemarcar.cpp:34-50 | after T bytes, T div n messages were delivered, the i-th is bytes i*n to (i+1)*n, and the last T mod n bytes wait |
| Demarcar.VariableSizeDemarcar.IsBufferReadyToFlush | TcpMsgVariableSizeDemarcar.cpp:25-38 | the answer is whether a whole message waits, and peeking leaves the ring as it was |
| Demarcar.VariableSizeDemarcar.FlushRound | TcpMsgVariableSizeDemarcar.cpp:48-51 | the loop's body on the ring takes out and delivers as many bytes as the length field says, none for a field of 0 |
| Demarcar.VariableSizeDemarcar.FlushRounds | TcpMsgVariableSizeDemarcar.cpp:46-52 | the loop on the ring, watched for any number of rounds, does what those rounds do |
| Demarcar.VariableSizeDemarcar.ProcessClientMsg | TcpMsgVariableSizeDemarcar.cpp:40-53 | the flush loop delivers what the greedy parse of the ring's content delivers and leaves its residue |
| Demarcar.VariableSizeDemarcar.ProcessMsg | TcpMsgDemarcar.cpp:49-60 | write and flush are one step of the connection model |
| Demarcar.FixedSizeDemarcar.ProcessClientMsg | TcpMsgFixedSizeDemarcar.cpp:34-50 | the flush loop cuts all whole messages off the ring |
| Demarcar.FixedSizeDemarcar.ProcessMsg | TcpMsgDemarcar.cpp:49-60 | write and flush are one step of the fixed-size connection model |
| CliLaws.FindMatchingMeans | CommandParser/parser.c:61-115 | a command named in full is found whatever else it abbreviates; failing that one that the token abbreviates, surely if it is the only one, the one the user picks if there are several; a leaf if and only if no command accepts the token and there is one |
| CliLaws.EveryLineKeepsInv | CommandParser/parser.c:278-372 | after any line that has no further line parsed, the buffer up to the checkpoint is exactly the leaf TLVs from root to cursor, with nothing behind it: if and only if the line did not run the handler of config behind its command code |
| CliLaws.RunsKeepInv | CommandParser/parser.c:278-372 | the same after every run of such lines, whatever succeeds or fails in it and whatever the user answers at each |
| CliLaws.BuildKeepsInv | CommandParser/parser.c:120-269 | the equivalence for command lines, failed and mode-entering ones included |
| CliLaws.DoIsTransparent | CommandParser/parser.c:290-325 | a do command either enters a mode outside the config branch, so the assertion behind it cannot fail, or leaves cursor, checkpoint and the rebuilt TLVs exactly as they were |
| CliLaws.GoUpKeepsInv | CommandParser/cmd_hier.c:681-710 | one level up moves to the parent, with buffer and checkpoint exactly the parent's path, and empties the value of the leaf that is left and no other |
| CliLaws.GoTopKeepsInv | CommandParser/cmd_hier.c:654-679 | going to the top leaves the cursor at the root, buffer and checkpoint empty, every leaf on the old path empty and every other value as it was |
| CliDelivery.TypedCommandExecutes | CommandParser/parser.c:120-269 | a command line whose words name parameters one below the other, in full, abbreviated or as valid leaf values, runs the handler of the last one, or of the one before `/` and `brief`, with the TLVs in the buffer, one for each leaf value typed, and the command code, told to enable or disable as `no` was typed or not; it stores the values typed, and moves the cursor only for a mode |
| CliDelivery.TypedDoExecutes | CommandParser/parser.c:295-321 | a do line runs, stores and delivers the same for the command in it, from the do hook and with an empty buffer, and leaves the cursor where it was unless a mode is entered |
| CliDelivery.NamedIsFound | CommandParser/parser.c:61-115 | a word that names one option is taken for it whatever the user would choose |
| CliDelivery.CalledIsRun | CommandParser/parser.c:178-254 | the parameter on which it depends whether lines are fed is the one whose handler runs |
| CliDelivery.InvalidValueStops | CommandParser/parser.c:139-165 | a leaf value that fails the library's or the application's check calls no handler, moves nothing, and gives the status of the check it failed |
| CliDelivery.UnknownWordStops | CommandParser/parser.c:174-176 | so does a word that nothing answers to |
| CliDelivery.Keywords | CommandParser/parser.c:290-360 | which lines are not looked up in the tree: cd, cd.., cls, run ut, config load, do, and every beginning of repeat |
| CliDelivery.OtherWordsAreCommands | CommandParser/parser.c:361-362 | every line that begins with another letter is a command line |
| CliDelivery.CdGoesToTheTop | CommandParser/cmd_hier.c:654-679 | the line cd leads to the root from everywhere, empties the buffer and the leaves on the way, and touches nothing else |
| CliDelivery.CdGoesUp | CommandParser/cmd_hier.c:681-710 | the line cd.. leads to the parent, drops a leaf's TLV and value, and touches nothing else |
| CliDelivery.OthersChangeNothing | CommandParser/parser.c:323-341 | cls, and do outside the config branch, change nothing |
| CliDelivery.OnlyCommandsFail | CommandParser/parser.c:278-372 | of the lines not looked up in the tree only an empty one is not complete, and by themselves they call no handler |
| Decimals.DecimalReads | CommandParser/parser.c:249-249 | the text of a command code reads back as the code, with no sign but a minus and no leading zeros |
| Decimals.DecimalInjective | CommandParser/parser.c:249-249 | no two command codes have the same text |
| CliNested.FedLineKeepsInv | CommandParser/clistd.c:237-281 | a command whose handler has one line parsed from inside ends the program if and only if the handler runs a script and that line is not complete or the runner fails; otherwise it keeps the invariant if and only if that line neither enters a mode nor goes up from a leaf whose parent is not the root |
| CliNested.FedLineInDo | CommandParser/parser.c:297-321 | the same during a do command: the program ends if and only if the line fed goes up or is a do itself, or fails in a script; otherwise cursor and buffer are as before, if and only if it enters no mode |
| CliNested.FedLineInDoMode | CommandParser/parser.c:310-314 | the same during a do command that entered a mode: the program ends if and only if the line fed leads to the root, or fails in a script |
| CliDepth.GoingUpFromTheHook | CommandParser/cmd_hier.c:639-710 | cd, cd.. and do fed at the do hook end the program, which has no parent to follow there |
| CliNested.RepeatedLineKeepsInv | CommandParser/clistd.c:154-163 | repeat, or a script of one line, keeps the invariant if and only if the line would have kept it when typed; only the script can end the program, if and only if the line is not complete or the runner fails |
| CliDepth.ScriptIsTyping | CommandParser/ut/utinfra/ut_parser.c:134-267 | a script of any number of lines leaves the command line where typing them leaves it; it ends the program if and only if one of them is not complete or the runner fails |
| CliDepth.EveryNestedLineKeepsRoom | CommandParser/cmd_hier.c:694-698 | whatever lines have which lines parsed, to any depth, and whatever they break: as long as the program goes on, the checkpoint is at the end of the buffer between lines and there is a TLV before it for every leaf on the path |
| CliDepth.GoUpKeepsRoom | CommandParser/cmd_hier.c:694-698 | in every such state, between lines or inside one, the rewind by one TLV of a cd.. from a leaf does not go before the beginning of the buffer, and leaves such a state |
| CliDepth.TameLineKeepsInv | CommandParser/parser.c:278-372 | lines that feed lines that feed lines, to any depth, history, repeat and unit test scripts: the invariant is kept and the program goes on as long as none inside is of a kind that spoils it, gets stranded or fails in a script |
| CliNested.NothingFed | CommandParser/parser.c:278-372 | a line that feeds nothing does what the model of a single line says |
| CliDo.DoIsTypingAtTheRoot | CommandParser/parser.c:295-321 | do q runs the same handler with the same TLVs, command code and mode as q typed at the root, with the same status and values stored, and enters the same mode, where the first token means the same at the do hook |
| CliDo.DoModesAreTransparent | CommandParser/parser.c:295-321 | what is typed in a mode entered by do, or in any mode entered from there step by step, reaches its handler as if typed behind all the words at the root, the enable or disable mode if and only if no negation is lost |
| CliBounds.EveryLineKeepsSane | CommandParser/parser.c:278-372 | every line that has no further line parsed, those breaking the invariant included, leaves a buffer that ends with the path's TLVs and a checkpoint at its end |
| CliBounds.RunsKeepSane | CommandParser/parser.c:364-371 | and so does every run of such lines |
| CliBounds.GoUpKeepsSane | CommandParser/cmd_hier.c:694-698 | going up leaves a buffer that ends with the parent's path, and from a leaf there is a TLV to drop |
| CliModes.ModesAreTransparent | CommandParser/parser.c:120-269 | typing q in the mode entered step by step calls the same handler with the same TLVs and command code as typing everything at once; the enable or disable mode is the same too, if and only if no negation typed before a slash is lost on a handler that is told it |
| CliModes.ModesEndAlike | CommandParser/parser.c:364-371 | both ways of typing end with the same status and holders, and a command that enters a mode leaves the same cursor, buffer and checkpoint; any other leaves one in the mode as it was |
| CliModes.WalkInModes | CommandParser/parser.c:133-176 | the walk along q from the mode's cursor ends where the walk along all tokens ends |
| CliModes.ModeEntered | CommandParser/parser.c:220-230 | cursor, buffer and holders in the mode are those the walk before the slash had reached |
| CliModes.DispatchSends | CommandParser/parser.c:198-254 | what each kind of complete command hands to which handler, told from the trail alone |
| CliModes.CommandSends | CommandParser/parser.c:178-254 | what a command line adds to the handler calls is a function of its trail alone |
| CliModes.CdUpUndoesAMode | CommandParser/cmd_hier.c:681-710 | cd.. once per token but the negations brings back cursor, buffer and checkpoint after entering a mode, for any mix of commands and leaves; fewer do not |
| CliRegistration.EveryBuiltTree | CommandParser/cmd_hier.c:565-596 | every tree that calls of registration build, their assertions holding, meets all that the laws assume of trees |
| CliRegistration.CallMeans | CommandParser/cmd_hier.c:504-596 | a registered parameter is the last option of its parent, whose capability slots are filled; brief and a hook are added last too; `no` offers what the parameter it negates offers; nothing else changes |
| CliRegistration.EveryBuiltTreeIsLinked | CommandParser/cmd_hier.c:582-591 | in every tree that registration builds each parameter is an option of its parent |
| CliRegistration.RegisteredIsFound | CommandParser/parser.c:61-115 | a registered command whose name no sibling shares is found when typed in full |
| CliRegistration.RegisteredCommandExecutes | CommandParser/parser.c:120-269 | so typing the words of any registered command runs it |
| CliRegistration.NegateOk | CommandParser/cmd_hier.c:504-541 | so does one with a negation added below a parameter of the config branch, offering all the parameter offers behind its capability slots |
| CliRegistration.HookUpOk | CommandParser/cmd_hier.c:395-402 | so does one with a further hook below the do hook |
| CliTree.BranchIsBelowRoot | CommandParser/cmd_hier.c:639-647 | the branch hook of a parameter is the parameter or above it, and its parent is the root |
| CliSample.SampleOk | CommandParser/cmd_hier.c:256-448 | a small tree with config, show history, a negation and a nested command meets what is assumed of trees |
| CliSample.NegationIsLost | CommandParser/parser.c:228-243 | a concrete mode entered with a negation in which a command is told to enable instead of disable |
| CliSample.HistoryBreaksTheMode | CommandParser/clistd.c:276-277 | show history at the root and config picked from it: the mode is entered and the invariant broken |
| CliSample.HistoryEndsTheProgram | CommandParser/cmd_hier.c:681-700 | do show history in the config mode and cd.. picked from it: the program ends |
| CliSample.ScriptEndsTheProgram | CommandParser/ut/utinfra/ut_parser.c:152-267 | run ut at the root with a script that holds an incomplete or unregistered command, or that cannot be opened: the program ends |
| CliSample.ConfigSlashBreaksTheMode | CommandParser/clistd.c:321-328 | the concrete line, the buffer it leaves, and the TLVs a handler then gets too many |
| Serialize.SerBuff.SerializeString | CommandParser/serialize.c:271-294 | a TLV is appended whatever the free space, the block doubling until it fits; checkpoint and content kept |
| Serialize.SerBuff.Skip | CommandParser/serialize.c:53-69 | skipping back drops TLVs from the end, skipping forward keeps all |
| Serialize.SerBuff.RestoreCheckpoint | CommandParser/serialize.c:71-76 | the content is cut back to the checkpoint |
| Serialize.SerBuff.ReverseUnits | CommandParser/cmd_hier.c:793-804 | swapping units in place from both ends reverses the buffer |
| CommandParser.CommandLine.FindMatchingParam | CommandParser/parser.c:61-115 | an exact name wins over abbreviations, a unique abbreviation over a leaf, several are chosen from, and the array of possibilities is never overrun |
| CommandParser.CommandLine.GetCurrentBranchHook | CommandParser/cmd_hier.c:639-647 | the upward loop ends at the one parameter at or above the given one whose parent is the root |
| CommandParser.CommandLine.BuildTlvBuffer | CommandParser/parser.c:120-269 | the token loop and the cases behind it do to the state what the model's walk and dispatch do, and tell which kind of handler ran |
| CommandParser.CommandLine.DispatchCommand | CommandParser/parser.c:178-254 | the cases for brief, suboptions, mode, expansion and ordinary commands on the buffer object |
| CommandParser.CommandLine.GoOneLevelUp | CommandParser/cmd_hier.c:681-710 | one step of the model's cd.. |
| CommandParser.CommandLine.GotoTop | CommandParser/cmd_hier.c:654-679 | the upward loop clears every leaf's value holder on the path and the buffer |
| CommandParser.CommandLine.BuildCmdTreeLeavesData | CommandParser/cmd_hier.c:758-805 | collecting upwards and reversing in place gives the TLVs from root to cursor in order |
| CommandParser.CommandLine.ExecuteCommand | CommandParser/parser.c:178-254 | a command with the lines its handler has parsed, on the objects, is the model's |
| CommandParser.CommandLine.RunDoCommand | CommandParser/parser.c:295-322 | so is a do command, the assertion behind it included |
| CommandParser.CommandLine.FeedLines | CommandParser/ut/utinfra/ut_parser.c:156-267 | the loop over the lines of a script, its assertion included, or over the line of a menu, does what the model's does |
| CommandParser.CommandLine.ParseInputCmd | CommandParser/parser.c:278-372 | one line with every line parsed inside it, on the objects, ends the program if and only if the model's does, and else leaves its state and status, with room for every cd.. to come |
| TimerLib.FilledOk | libtimer/timerlib.cpp:26-51 | every programmed nanosecond field is below 10^9, the time is exact, and reading it back gives the milliseconds again |
| TimerLib.StepReady | libtimer/timerlib.cpp:68-73 | the callback's assertion on the back-off time holds at every expiration, and every call but a resume after an overflow keeps it so |
| TimerLib.RunsAreSafe | libtimer/timerlib.cpp:53-79 | over all runs of calls and expirations in which every resume finds the timer paused, with something to wait for and a back-off time, no assertion fails |
| TimerLib.BadResumeFails | libtimer/timerlib.cpp:198-220 | a resume without the first or the second fails at once, and after one without the third the next expiration fails, if and only if the threshold is not passed |
| TimerLib.ResumeAfterOverflowFails | libtimer/timerlib.cpp:198-220 | the run with a resume in which it fails |
| TimerLibLaws.BackOffTimes | libtimer/timerlib.cpp:68-73 | the first n expirations come at exp, 3*exp, ..., exp*(2^n - 1) milliseconds, if and only if exp*2^(n-1) fits an unsigned long |
| TimerLibLaws.BackOffThreshold | libtimer/timerlib.cpp:58-66 | with threshold h the callback of a backing-off timer runs min(n, h) times in n expirations, and the timer is cancelled, disarmed and its counter zero from the next one on, for all n: if and only if exp * 2^h does not wrap around to zero |
| TimerLibLaws.LargeThresholdNeverCancels | libtimer/timerlib.cpp:68-73 | a backing-off timer that starts at 1 ms with any threshold of 64 or more is never cancelled: it stays running, disarmed |
| TimerLibLaws.Periodic | libtimer/timerlib.cpp:84-130 | a periodic timer without threshold, as the wheel timer sets one up, expires at exp, exp + sec, exp + 2*sec, ... for ever |
| TimerLibLaws.PeriodicThreshold | libtimer/timerlib.cpp:58-66 | a periodic timer expires at exp + n*sec, calling back each time, and stops behind its threshold if and only if that is not the largest unsigned int |
| TimerLibLaws.PauseKeepsTheRest | libtimer/timerlib.cpp:180-220 | pause and resume shift the next expiration by the length of the pause if and only if a whole number of milliseconds was left |
| TimerLibLaws.ResumedSchedule | libtimer/timerlib.cpp:74-78 | a resumed timer expires when the rest is over, then after the first interval, and from there on after the second one, for ever or until its threshold |
| TimerLibLaws.RestartStartsOver | libtimer/timerlib.cpp:249-268 | a restarted timer expires, counts and calls back as a new one, for any number of expirations, whatever it was doing |
| TimerLibLaws.RescheduleArms | libtimer/timerlib.cpp:271-304 | a rescheduled timer is armed for the new times, keeps its count, and backs off from the new time |
| TimerLibLaws.CancelledNeverExpires | libtimer/timerlib.cpp:157-177 | a cancelled timer never expires and has its counter at zero; cancelling before the start does nothing |
| TimerLibLaws.PausedNeverExpires | libtimer/timerlib.cpp:180-196 | a paused timer never expires and remembers the whole milliseconds that were left; pausing twice is pausing once |
| TimerLibLaws.ResumeArms | libtimer/timerlib.cpp:199-220 | resuming arms the kernel's timer for what was left, or the first interval if nothing was, with the second interval behind it, and keeps the count |
| TimerLibLaws.TimeLeft | libtimer/timerlib.cpp:222-246 | the remaining time told is all ones for a cancelled or deleted timer, zero for a disarmed one, and else the whole milliseconds until it is due |
| PosixTimers.PosixTimer.TimerFillItimerspec | libtimer/timerlib.cpp:37-51 | the written time is the given number of milliseconds, in a form the kernel accepts |
| PosixTimers.PosixTimer.constructor | libtimer/timerlib.cpp:84-130 | setup programs the first and second interval, and for back-off the time read back |
| PosixTimers.PosixTimer.CancelTimer | libtimer/timerlib.cpp:157-177 | cancelling disarms the timer and zeroes its counter, and does nothing before the start or after deletion |
| PosixTimers.PosixTimer.RescheduleTimer | libtimer/timerlib.cpp:271-304 | the new times are armed and the invocation counter survives the cancel inside |
| PosixTimers.PosixTimer.TimerCallbackWrapper | libtimer/timerlib.cpp:53-79 | counting, threshold, callback and rearming are the model's |
| PosixTimers.PosixTimer.OnExpiration | libtimer/timerlib.cpp:53-79 | an expiration finds its assertion true and leaves it true |

## Left out

Timer wheel:

- WheelTimer.WheelTimer.WheelFn: the mutexes are not modelled; a tick and each call are atomic steps.
- WheelTimer.WheelTimer.RunCallback: a callback that deregisters its own element would block on the element's mutex in the program; here it returns.
- WheelTimer.WheelTimer.TimerRegisterAppEvent: intervals that are zero or no multiple of the tick hit an assertion in the program and are demanded of the caller here. Negative intervals, some of which pass that assertion because the remainder is unsigned, are excluded as well. An application's requests that break this are not made.
- WheelTimer.WheelTimer.TimerReschedule: the same intervals; and using an element after it was freed is excluded by the set of live elements.
- WheelTimer.WheelTimer.TimerDeRegisterAppEvent: clearing the callback's argument is not modelled, nor is the argument.
- WheelTimer.WheelTimer.GetRemainingTime: tick counters and cycle numbers are unbounded, so a 32-bit overflow of them is not modelled.
- GlueThread.PriorityInsert: the cast from a node to its element by a byte offset is a field with the element's number.
- `N_scheduled`, `slotlist_head`, debug output, stopping, printing and `reset_wheel_timer`.

Message demarcation:

- Demarcar.VariableSizeDemarcar.ProcessClientMsg: a method must end, so where the program would loop for ever or run over its scratch buffer this one returns that outcome; FlushRounds and LivelockExactly are about the loop as it is.
- Demarcar.FixedSizeDemarcar.ProcessMsg: a fixed size of 0 (a division by zero) or above 1024 (beyond the scratch buffer) is demanded not to be configured.
- Framing.FramingRoundTrip: the length field is read low byte first, as on a little-endian host.
- Sockets, threads, connection management and reference counts; the pattern demarcar, which the program does not implement.

Command line:

- CommandParser.CommandLine.ParseInputCmd: takes the line as tokens, none of them empty, and with it the lines its handlers will feed; cutting lines, with the limits of 16 tokens and 64 characters, and reading them from history and script files is not modelled. `config load`, which reads a file past the parser's cases, is excluded.
- CliNested.Enter: lines nest finitely deep, so a script that runs itself again through `repeat` for ever is not modelled. A failing assertion or a null pointer ends the program there.
- CliDepth.TameLineKeepsInv: `config load` is not modelled. Exactly when the invariant holds is stated for one line fed, and a script run between ordinary lines is equated with typing its lines; for deeper nesting the condition is sufficient.
- CommandParser.CommandLine.FindMatchingParam: the user's choice among several abbreviations is a function of the list shown; more than nine, which fail an assertion, are excluded by the assumptions on the tree.
- CommandParser.CommandLine.BuildTlvBuffer: a handler other than that of `config` does nothing to the command line itself.
- Serialize.SerBuff.SerializeString: the block is seen as whole TLV records, so bytes, other lengths and the fixed widths of identifiers and values are not modelled, nor is an allocation that fails.
- Serialize.SerBuff.Skip: whole TLVs only, and not before the beginning of the buffer.
- CliModes.CdUpUndoesAMode: the value holders of the leaves that were left are empty afterwards, whatever they held before.
- CliRegistration.EveryBuiltTree: registration is modelled on values, a parameter being registered before its own children. A negation below a parameter without options, which the program puts behind empty slots where it cannot be found, and `repeat` below the do hook are excluded.
- Console names, history files, help and display output.

POSIX timers:

- TimerLibLaws.BackOffTimes: the kernel's timer is ideal: it expires exactly when due, and the callback takes no time and does not call the library.
- PosixTimers.PosixTimer.TimerCallbackWrapper: the assertion on the back-off time is demanded where the program makes it.
- Deleting timers, printing them, and failing system calls.
