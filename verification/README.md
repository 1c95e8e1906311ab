# Verified core of the asyncflow engine

A Dafny model of four parts of the asyncflow repository, with proofs of what they are for.
Everything the model says is about the code at the cited lines; nothing was executed.

## Timers

`thirdparty/ratas.h` is a hierarchical timer wheel: eight levels of 256 slots, events in
intrusive lists, promotion from outer to inner levels, callbacks that schedule and cancel, and
calls that stop in the middle of a tick and are resumed.

* `FlatTimers` is the specification: a clock and a map from event to due tick, with the actions
  that are legal at each moment, and what follows for every legal run.
* `TimerArith` and `TimerModel` are the wheel on values. The contracts of its functions carry
  the placement invariant (every event in the slot of its due tick's byte at its level, 1 to 255
  steps ahead of the hand) and the refinement of the specification.
* `TimerHistory` says that the history has ticks, firings and what was asked for, all of it and
  in order, and nothing else.
* `TimerRuns` has the results about whole runs: refinement, and that limits and the division
  into calls do not matter.
* `TimerWheels` is the wheel on the heap: events and slots are objects with `next`, `prev` and
  `slot` fields rewritten in place. A ghost field holds the value model, and every method is
  proved to act on it like the function of the same purpose.
* `AgentTimers` is the use that `src/core/timer_manager.cpp` makes of it: agent ticks.

Callbacks are functions of the history. What is asked of them is what the wheel asserts of its
callers (`TimerModel.WellBehaved`): up to the tick that the calls reach, they schedule known
events, ahead and below 2^64. Callbacks that reschedule themselves always are among them, and
`AgentTimers.AgentsExist` gives one for which all demands of the main theorem hold.

## Flowcharts

`src/core/executor.cpp` runs a chart depth first over a possibly cyclic graph; nodes move
between the executor's stack and lists of nodes that wait for an event.

* `Flowchart` has charts, nodes and lists, and the invariant that every node is linked exactly
  in the list its container pointer names. `FlowExecutor` has the run. What script functions
  do is a parameter: each call answers true or false after any number of requests (wait for an
  event, wait for time, stop nodes, stop a flow, return), and may depend on the calls before.
* `FlowWaiting` has what each request does, and what becomes of a node that waits.
* `FlowPlain`, `FlowReach`, `FlowLoops` and `FlowWitness` are about functions that only answer.
* `FlowSearch` is the search behind stopping a flow.
* `FlowDispatch` handles an event, `EventQueues` queues events over steps, and `RingLists` is
  the ring of links that makes swapping a waiting list away safe.
* `FlowEngine` is the engine on node objects whose fields and containers change in place.
* `NestedEvents` are events that a run triggers while it runs: dispatch within dispatch, on the
  stack of executors and the event frames; `NestedActs` has what each act of a run does,
  `NestedWaiting` says which nodes wait meanwhile, and `NestedManagers` is the manager that does it.
* `ChartTree` has charts that own charts, timers and wait-all nodes as objects that point to
  each other, and proves that stopping a chart stops all that it owns and nothing else.

Some places where the code does something its comments do not lead to expect are stated as
results. A looping node waits for the next tick only if it is reached exactly once more after
its call: reached again, it is taken out of the tick list and never resumed
(`FlowPlain.PlainRunsAreExact` says when, `FlowWitness.LoopNodeCanBeLost` shows a case). No node is
lost in a chart where every node is entered at most twice, by edges of one kind or as the start
(`FlowLoops.FewEdgesLoseNone`), and the lost node of that case is entered three times. An event
raised as immediate between two steps is dispatched one step later than a deferred one
(`EventQueues.DispatchTimes`). Two more come from nesting. The guard on event frames
(src/core/manager.cpp:443) refuses no trigger, since the executor stack, of the same size, is
used up first (`NestedEvents.FramesAreNeverRefused`); and `_handleEvent` does not look at what
`RunFlow` answers, so that an event triggered on the last executor takes its nodes out of their
list and runs none of them (`NestedEvents.LastExecutorLosesAll` says when,
`NestedEvents.NodesCanBeLost` shows a case).

## JSON

`JsonGrammar` is the recursive-descent parser of `thirdparty/rapidjson/reader.h` as functions,
`JsonAutomaton` the table-driven one, and `JsonReader` both of them on a mutable cursor and stack.
The parsers take the scanners for strings and numbers as parameters; both call the same ones.
`JsonTexts` is the grammar of JSON texts on its own, with white space, comments and trailing
commas: the parsers accept exactly its texts and send exactly the events of the value that a text
denotes. `JsonNumbers` is the integer part of number scanning with explicit word widths,
`JsonStrings` the scanner and the writer of strings with their escapes, `JsonDom` the document
builder and the replay of a tree, and `JsonWriter` the writer of `thirdparty/rapidjson/writer.h`.
`JsonRoundTrip` puts them together: a document of integers and any strings is written as a text
that both parsers read back as that document. `JsonPointers` is the parser and printer of
RFC 6901, with `PointerIndexes` for the array indexes of tokens.

The two parsers differ in two reports, and `JsonAutomaton.ParsersAgree` says exactly when: a text
whose first token is one of `]`, `}`, `,` and `:` is an invalid value to one and an empty document
to the other; and when the handler rejects a bracket that the recursive parser has taken, which
is every bracket but one closing behind a trailing comma, the iterative parser reports the offset
before it instead of behind it (`JsonAutomaton.BracketIsReportedEarlier`,
`JsonAutomaton.TrailingBracketIsReportedAlike`).

The test for overflow in a pointer's array index does not find every overflow:
`PointerIndexes.IndexesAreRightExactlyWhen` says when it does, and
`PointerIndexes.OverflowCanBeMissed` shows a token, 5000000000, that is taken for another index.

## Text encodings

`UtfCodecs` proves the range-table UTF-8 decoder and the arithmetic encoder inverse to each other
against the grammar of RFC 3629, and the same for UTF-16 and for transcoding; `UtfStreams` has
them on input and output streams.

## Model
| member | source | states |
|---|---|---|
| `FlatTimers.FiringIsScheduled` | thirdparty/ratas.h:235-243 | In every legal run an event fires only at the tick it was scheduled for, and nothing cancelled, rescheduled or fired it in between; so one scheduling fires at most once. |
| `FlatTimers.SchedulingFate` | thirdparty/ratas.h:229-248 | While nothing touches a scheduled event it stays due and its tick is not passed; the first action that touches it comes at its tick or earlier, and exactly then if it is the firing. |
| `FlatTimers.ClockMonotone` | thirdparty/ratas.h:239-240 | The clock never runs backwards along a run, so firings come in nondecreasing tick order. |
| `TimerModel.TargetSlot` | thirdparty/ratas.h:442-449 | The level loop ends at a slot of a level below 8 that fits the due tick, and that is never under a hand. |
| `TimerModel.Insert` | thirdparty/ratas.h:438-451 | Scheduling moves the event to the target slot, sets its due tick and changes no other event; no list under a hand grows. |
| `TimerModel.ScheduleEvent` | thirdparty/ratas.h:438-451 | Keeps the whole wheel invariant: placement of every event at every level, coherent clocks, and the history as a legal flat run that explains the state. |
| `TimerModel.CancelEvent` | thirdparty/ratas.h:345-352 | The event is inactive afterwards, also when it was before; the invariant is kept and the cancellation is in the history. |
| `TimerModel.ScheduleEventInRange` | thirdparty/ratas.h:453-478 | An event already due in the range is left alone; otherwise it becomes due at the picked delay, which for ends below 2^56 puts it between start and end from now. |
| `TimerModel.PerformDoes` | thirdparty/ratas.h:345-352 | A command enters the history as its action and changes the due ticks as that says: a cancelled event is due no more, a scheduled one is due at its new tick, an event already due in the range stays, and all others are left alone. |
| `TimerHistory.FiringActs` | thirdparty/ratas.h:406-415 | A firing appends the firing and then exactly the actions of all commands of the callback, in order, each as of the state then reached. |
| `TimerHistory.AdvancesGoOn` | thirdparty/ratas.h:354-436 | Whatever is advanced, the history goes on by ticks, and by firings each with exactly what its callback asked for. |
| `TimerArith.RangeDeltaInRange` | thirdparty/ratas.h:467-477 | The picked delay lies in (start, end] if and only if end < 2^56: beyond that the shift back of the mask also clears the top byte. |
| `TimerArith.RangeDeltaIsRoundest` | thirdparty/ratas.h:467-475 | Below 2^56 the delay is the greatest multiple, not above end, of the largest power of 256 that has a multiple in the range. |
| `TimerArith.AgreeingBytes` | thirdparty/ratas.h:470-473 | The mask loop ends, and it clears exactly the low bytes in which the bounds differ. |
| `TimerModel.Promote` | thirdparty/ratas.h:416-426 | Promotion puts an event into a wheel strictly further in and fires nothing, so the list being drained shrinks. |
| `TimerModel.FireHand` | thirdparty/ratas.h:406-415 | Firing an event and running its callback, which may schedule and cancel any event, keeps the invariant and shrinks the list being drained; what it records is `TimerHistory.FiringActs`. |
| `TimerModel.StrictlyInside` | thirdparty/ratas.h:424-425 | An event under a hand that is not due yet belongs in a lower level than the one being drained. |
| `TimerModel.Drain` | thirdparty/ratas.h:406-435 | The drain loop ends; when it is not cut short by the limit, nothing is left under the hand of this level. |
| `TimerRuns.DrainCountsFirings` | thirdparty/ratas.h:406-435 | A slot stops exactly when as many events have fired in it as the limit says, a limit of 0 being 2^64, and no more ever fire. |
| `TimerModel.Process` | thirdparty/ratas.h:398-436 | Recursion into the outer wheels ends; a completed call leaves no event under the hands at or outside this level. |
| `TimerModel.Ticks` | thirdparty/ratas.h:388-395 | Processes delta ticks, or stops within one; the ticks still pending plus those done make up delta. |
| `TimerModel.Advance` | thirdparty/ratas.h:354-396 | Conserves time: the tick to be reached grows by exactly delta, completed or not; when nothing is pending no event is due at or before now. |
| `TimerRuns.RunsRefineFlat` | thirdparty/ratas.h:345-451 | For every sequence of schedulings, cancellations and limited or unlimited advances on a new wheel, and all callbacks that schedule and cancel as the wheel allows, the history is a legal run of the flat map from event to due tick, the final wheel is that map, every request of a caller or of a callback has its action at its place in the history and nothing else is there, and the ticks done and pending are those asked for. |
| `TimerRuns.SchedulingIsKept` | thirdparty/ratas.h:229-248 | Between calls, a scheduling nothing has touched is still active with its tick ahead; it is first touched at its tick or earlier, and fires only at its tick. |
| `TimerRuns.FiringIsExplained` | thirdparty/ratas.h:345-352 | No event fires without a scheduling for that very tick that was not cancelled since. |
| `TimerRuns.DrainContinues` | thirdparty/ratas.h:406-435 | A drain cut short by the limit and continued without one ends like a drain without a limit. |
| `TimerRuns.ProcessContinues` | thirdparty/ratas.h:354-381 | A tick cut short at any level and resumed ends like the tick processed at once. |
| `TimerRuns.AdvanceContinues` | thirdparty/ratas.h:354-396 | After any limited call, an unlimited call for more ticks leaves the same wheel and history as one unlimited call for all of them. |
| `TimerRuns.LimitsDoNotMatter` | thirdparty/ratas.h:354-396 | Any sequence of advances, each with its own delta and limit, that leaves nothing pending ends in the same wheel and history as one unlimited advance over the total. |
| `TimerWheels.TimerWheel.constructor` | thirdparty/ratas.h:222-227 | A new wheel is valid and empty at its start tick. |
| `TimerWheels.TimerWheel.TakeOut` | thirdparty/ratas.h:311-325 | Unlinking rewrites the neighbours and the head so that the slot lists are the same without the event. |
| `TimerWheels.TimerWheel.PutIn` | thirdparty/ratas.h:328-341 | Linking in front makes the list of the new slot begin with the event and changes no other list. |
| `TimerWheels.TimerWheel.Relink` | thirdparty/ratas.h:306-343 | The linked lists afterwards are those of the model's relink, whether the event was active, inactive or already there. |
| `TimerWheels.TimerWheel.PopEvent` | thirdparty/ratas.h:196-205 | Removes and returns the first event of a slot and leaves it inactive. |
| `TimerWheels.TimerWheel.Schedule` | thirdparty/ratas.h:438-451 | Does to the linked lists and clocks what ScheduleEvent does to the model. |
| `TimerWheels.TimerWheel.Cancel` | thirdparty/ratas.h:345-352 | Does to the linked lists what CancelEvent does to the model. |
| `TimerWheels.TimerWheel.ScheduleInRange` | thirdparty/ratas.h:453-478 | Does to the linked lists what ScheduleEventInRange does to the model, with the delay found by the mask loop. |
| `TimerWheels.FindRangeDelta` | thirdparty/ratas.h:470-475 | The mask loop computes RangeDelta. |
| `TimerWheels.TimerWheel.DrainSlot` | thirdparty/ratas.h:406-435 | The loop over the linked slot, with callbacks that change the lists under it, ends with the wheel and verdict of Drain. |
| `TimerWheels.TimerWheel.ProcessCurrentSlot` | thirdparty/ratas.h:398-436 | Mutual recursion with the outer advance gives the wheel and verdict of Process. |
| `TimerWheels.TimerWheel.AdvanceOuter` | thirdparty/ratas.h:354-396 | The case level > 0 with delta 1, fresh or resumed, gives the wheel and verdict of Outer. |
| `TimerWheels.TimerWheel.Advance` | thirdparty/ratas.h:354-396 | Keeps the object valid and gives the wheel, the pending ticks and the verdict of the model's Advance. |
| `TimerHistory.AdvanceKeeps` | src/core/timer_manager.cpp:41-45 | Whatever every tick and every firing with its callback keeps of the history, every advance keeps. |
| `AgentTimers.AgentReschedules` | src/core/timer_manager.cpp:24-33 | The agent timer's callback schedules the timer again one interval ahead of the tick it fired at, and nothing else. |
| `AgentTimers.PeriodicIsKept` | src/core/timer_manager.cpp:18-33 | Being on the beat, with firings at exactly t0 + k * interval without a gap and the next one scheduled, is kept by every tick and every firing of any event. |
| `AgentTimers.BeatIsKept` | src/core/timer_manager.cpp:41-45 | So it is by any sequence of advances, limited or not; when nothing is pending the firings are all that fit up to now. |
| `AgentTimers.TicksArePosted` | src/core/timer_manager.cpp:23-31 | One tick event is posted for each firing that finds the agent running, at the tick of that firing; for an agent that always runs, for every firing. |
| `AgentTimers.AgentDoesNotDrift` | src/core/timer_manager.cpp:18-45 | From `Start()` on, at any tick t0 and among any other timers, with a fixed interval and any sequence of steps, limited or not: the k-th firing comes at exactly t0 + k * interval, each posts its tick event if the agent runs, and when nothing is pending the firings are all that fit up to now. |
| `AgentTimers.AgentsExist` | src/core/timer_manager.cpp:18-33 | The demands of the theorem are met by an agent on a new wheel, for every start, interval and steps that stay one interval below 2^64. |
| `JsonGrammar.SkipIsComplete` | thirdparty/rapidjson/reader.h:709-735 | Skipping leaves nothing to skip: it ends at a character that begins neither white space nor an allowed comment, and without comments all before that is white space. |
| `JsonTexts.ValueTree` | thirdparty/rapidjson/reader.h:867-890 | A text that parses as a value denotes that value in the grammar, `true` true and `false` false, and the events sent are those of the value. |
| `JsonTexts.ValueParses` | thirdparty/rapidjson/reader.h:1731-1744 | A text that denotes a value in the grammar, with any gaps, parses up to its end with the events of that value. |
| `JsonTexts.GapIsSkipped` | thirdparty/rapidjson/reader.h:709-735 | Skipping takes white space and whole comments, a block comment up to its first end and a line comment up to its line break. |
| `JsonTexts.LiteralsAreExact` | thirdparty/rapidjson/reader.h:867-890 | A literal parses exactly where its word stands, and is otherwise reported at the first character that differs. |
| `JsonTexts.TextsParse` | thirdparty/rapidjson/reader.h:557-588 | Both parsers accept every text of the grammar and send the events of the value that it denotes. |
| `JsonTexts.ParsedAreTexts` | thirdparty/rapidjson/reader.h:557-588 | Whatever either parser accepts is a text of the grammar, and its events are those of the value that it denotes. |
| `JsonTexts.ErrorsAreExplained` | thirdparty/rapidjson/reader.h:738-851 | Every error means what its code says: the character at its offset is not the one missed, a missed colon follows a name, a termination was asked for by the handler, an empty document has no events. |
| `JsonTexts.MembersTree` | thirdparty/rapidjson/reader.h:738-803 | The member loop takes the names, colons, values and separators of the grammar, sends name and value of every member, and ends the object with their exact number, also behind a trailing comma. |
| `JsonTexts.ElementsTree` | thirdparty/rapidjson/reader.h:806-851 | The element loop takes the values and separators of the grammar, sends every element, and ends the array with their exact number, also behind a trailing comma. |
| `JsonAutomaton.Transit` | thirdparty/rapidjson/reader.h:1990-2139 | Every transition keeps the stack consistent with the state and, unless it ends the parse, consumes input. |
| `JsonAutomaton.ContainerSame` | thirdparty/rapidjson/reader.h:738-851 | From a bracket on, the automaton emits the events of the recursive parser for the whole container, with the same counts, and returns to the state stored on its stack; or fails with the same error. |
| `JsonAutomaton.ParsersAgree` | thirdparty/rapidjson/reader.h:557-588 | For every text, every combination of the comment, trailing comma and stop-when-done flags and every handler, recursive and iterative parsing accept the same texts, send the same events and report the same errors at the same offsets, but for two exceptions: a first token that cannot begin a value, and an event rejected when its bracket is the character in front of the offset, which is then exactly one more than that of the iterative parser. |
| `JsonAutomaton.BracketIsReportedEarlier` | thirdparty/rapidjson/reader.h:2106-2113 | For the text `[]` and a handler that rejects the end of the array the offsets are 2 and 1. |
| `JsonAutomaton.TrailingBracketIsReportedAlike` | thirdparty/rapidjson/reader.h:842-849 | For the text `[[],]` and a handler that rejects the end of the outer array both offsets are 4. |
| `JsonReader.Reader.SkipWhitespaceAndComments` | thirdparty/rapidjson/reader.h:709-735 | The cursor loops move to where Skip says, or set its error. |
| `JsonReader.Reader.ParseObject` | thirdparty/rapidjson/reader.h:738-803 | The member loop, with its counter, has the outcome of the recursive specification. |
| `JsonReader.Reader.ParseArray` | thirdparty/rapidjson/reader.h:806-851 | The element loop, with its counter, has the outcome of the recursive specification. |
| `JsonReader.Reader.Parse` | thirdparty/rapidjson/reader.h:557-588 | The recursive parser on a mutable cursor has the outcome of Parse: position, events, error code and offset; what that is for each text is `JsonTexts.TextsParse` and `JsonTexts.ParsedAreTexts`. |
| `JsonReader.Reader.Transit` | thirdparty/rapidjson/reader.h:1990-2139 | A step on the mutable stack and cursor is the step of the automaton. |
| `JsonReader.Reader.IterativeParse` | thirdparty/rapidjson/reader.h:2171-2203 | The loop over a mutable stack has the outcome of IterativeParse. |
| `JsonReader.ParseBothWays` | thirdparty/rapidjson/reader.h:557-588 | Running both parsers on one text leaves the same events and the same verdict. |
| `JsonDom.FlagsAreRanges` | thirdparty/rapidjson/document.h:709-745 | The type flags are exactly the ranges that hold the value, whichever integer constructor made it. |
| `JsonDom.StoredOnce` | thirdparty/rapidjson/document.h:709-745 | A stored number reports itself through the handler function that stores it unchanged. |
| `JsonDom.AcceptBuilds` | thirdparty/rapidjson/document.h:1864-1901 | Replaying any tree into the document handler pushes exactly one value, that tree with its numbers as stored, and leaves what lay below untouched. |
| `JsonDom.CloneIsEqual` | thirdparty/rapidjson/document.h:2443-2483 | Replaying a tree of a document into an empty document rebuilds it. |
| `JsonTexts.ParseBuildsOneValue` | thirdparty/rapidjson/document.h:2265-2276 | A successful parse leaves exactly one value on the stack, the one that the text denotes with its numbers as stored; its own replay rebuilds it. |
| `JsonDom.Document.EndObject` | thirdparty/rapidjson/document.h:2471-2475 | Pops the members and closes the object on top of the stack, as Handle says. |
| `JsonDom.Document.EndArray` | thirdparty/rapidjson/document.h:2479-2483 | Pops the elements and closes the array on top of the stack, as Handle says. |
| `JsonWriter.WritesItsText` | thirdparty/rapidjson/writer.h:473-491 | Replaying a value into a new writer prints its text: brackets, commas and colons where the counts of the open levels put them, and no assertion of the writer fails. |
| `JsonWriter.Writer.Write` | thirdparty/rapidjson/writer.h:180-253 | The handler functions, with separator and levels, print as Print says. |
| `JsonWriter.Writer.WriteValue` | thirdparty/rapidjson/document.h:1864-1901 | A value that is accepted by a new writer leaves exactly its text. |
| `JsonWriter.TextDenotes` | thirdparty/rapidjson/writer.h:180-253 | The text printed for a value denotes that value in the grammar, wherever it stands. |
| `JsonWriter.PrintedTextsParse` | thirdparty/rapidjson/reader.h:557-588 | Either parser accepts the text of every value and sends the events of that very value. |
| `JsonWriter.DocumentRoundTrip` | thirdparty/rapidjson/document.h:2265-2276 | With scanners that read back what is printed, a document printed and parsed again is the same document. |
| `JsonStrings.ReadString` | thirdparty/rapidjson/reader.h:957-1061 | The loop over characters and escapes has the outcome of the specified scanner: the string with its end, or the error and its offset. |
| `JsonStrings.WriteString` | thirdparty/rapidjson/writer.h:376-448 | The loop writes quotes and escapes as specified. |
| `JsonStrings.StringsReadBack` | thirdparty/rapidjson/reader.h:957-1061 | Every string, with quotes, backslashes and control characters, is read back from what is written for it, whatever stands around it. |
| `JsonStrings.UnicodeEscapesRead` | thirdparty/rapidjson/reader.h:1011-1030 | Every code point is read from its escapes, one or a surrogate pair, as its UTF-8 bytes. |
| `JsonRoundTrip.DocumentsAreReadBack` | thirdparty/rapidjson/document.h:2265-2276 | Every document whose numbers are integers, with any strings and names, is printed as a text that both parsers, with every combination of their flags, read back as that document. |
| `JsonNumbers.Digits32` | thirdparty/rapidjson/reader.h:1480-1505 | The 32-bit digit loop never overflows its word, and stops exactly where another digit would. |
| `JsonNumbers.Digits64` | thirdparty/rapidjson/reader.h:1534-1559 | The 64-bit digit loop never overflows its word, and gives up exactly when the value leaves the range. |
| `JsonNumbers.IntegerPart` | thirdparty/rapidjson/reader.h:1478-1559 | The digit loops one after the other hand over without loss: the value of all digits in the narrowest word that holds it, or the double path exactly when none does. |
| `JsonNumbers.ParseNumber` | thirdparty/rapidjson/reader.h:1467-1723 | Reports the exact mathematical value of the digits, and leaves the integer path exactly for values out of range, a fraction or an exponent. |
| `JsonNumbers.ComplementIsArithmetic` | thirdparty/rapidjson/reader.h:1710-1721 | On words of 32 and 64 bits the complement is the distance from the greatest word, and complement plus one adds up to zero with the word. |
| `JsonNumbers.Negate32` | thirdparty/rapidjson/reader.h:1717-1721 | Complement and increment of the unsigned word, read as a signed one, give the negated value, also for 2^31. |
| `JsonNumbers.Negate64` | thirdparty/rapidjson/reader.h:1710-1715 | Complement and increment of the unsigned word, read as a signed one, give the negated value, also for 2^63. |
| `JsonNumbers.LiteralRoundTrip` | thirdparty/rapidjson/reader.h:1467-1559 | The decimal literal of every integer from -2^63 to 2^64 - 1 is read back as that integer, through a handler function whose type holds it; every other integer goes to the double path. |
| `JsonNumbers.LiteralInContext` | thirdparty/rapidjson/reader.h:1467-1723 | The same inside any text where no digit follows; a point or an exponent behind the digits leaves the literal to the double path, as a value out of range does. |
| `JsonNumbers.IntegersAreReadBack` | thirdparty/rapidjson/document.h:709-745 | Every stored integer is read back from its decimal literal and stored with the same value and flags. |
| `JsonNumbers.ParsersReadNumbers` | thirdparty/rapidjson/reader.h:1467-1723 | With this scanner the parsers agree on every text, and what they accept is the one value that the text denotes. |
| `JsonNumbers.IntegersBecomeDocuments` | thirdparty/rapidjson/document.h:2265-2276 | The literal of every integer from -2^63 to 2^64 - 1 is parsed by both parsers into the document that holds exactly that integer. |
| `JsonPointers.ParseNames` | thirdparty/rapidjson/pointer.h:811-922 | A successful parse finds exactly as many names as there are slashes in the source, and with their terminators they fit a buffer of the length of the source. |
| `JsonPointers.StringRoundTrip` | thirdparty/rapidjson/pointer.h:944-975 | Printing any pointer in string form and parsing it gives the same names, whatever bytes they hold. |
| `JsonPointers.UriRoundTrip` | thirdparty/rapidjson/pointer.h:944-975 | A pointer prints as a URI fragment if and only if all its names are valid UTF-8, and the fragment then parses to the same names. |
| `JsonPointers.CharacterInverts` | thirdparty/rapidjson/pointer.h:983-1040 | The percent-decoding stream reads back the triplets that the percent-encoding stream wrote for any valid character. |
| `JsonPointers.TripletsAreExact` | thirdparty/rapidjson/pointer.h:983-1010 | A triplet is a percent sign with two hexadecimal digits of either case, and stands for the byte they denote. |
| `JsonPointers.StringFormIsExact` | thirdparty/rapidjson/pointer.h:805-935 | A text in string form is parsed into the only names that print it; it is refused exactly where it does not begin with a slash, or has a tilde with neither 0 nor 1 behind it, at that offset. |
| `JsonPointers.JsonPointer.Parse` | thirdparty/rapidjson/pointer.h:805-935 | The cursor loops leave the names with their indexes, or the error code and offset, that the specification gives. |
| `PointerIndexes.TokenIndex` | thirdparty/rapidjson/pointer.h:892-920 | The digit loop in a 32-bit word, with its test for overflow, ends with the digits' value modulo 2^32, or with no index when the name is no numeral or the word falls at some digit. |
| `PointerIndexes.IndexesAreRightExactlyWhen` | thirdparty/rapidjson/pointer.h:907-920 | A numeral's index is its value, or none, if and only if the value fits the word, or the word falls at some digit, or the rest of the value marks none. |
| `PointerIndexes.TenDigitsFallExactlyWhen` | thirdparty/rapidjson/pointer.h:910-917 | For values of up to ten digits that do not fit, the overflow is found exactly when the value modulo 2^32 is below a tenth of the value. |
| `PointerIndexes.OverflowCanBeMissed` | thirdparty/rapidjson/pointer.h:910-917 | The token 5000000000 is taken for the index 705032704. |
| `PointerIndexes.IndexRoundTrip` | thirdparty/rapidjson/pointer.h:267-285 | The name of a token appended by index is read back as that index, for every 32-bit index. |
| `PointerIndexes.OnlyNumeralsHaveIndexes` | thirdparty/rapidjson/pointer.h:892-920 | A name has an index only if it is the decimal numeral of a number: none for the empty name, other characters or a leading zero. |
| `JsonPointers.JsonPointer.ScanName` | thirdparty/rapidjson/pointer.h:843-897 | The inner loop gives one name and where it ends, or the error and its offset. |
| `JsonPointers.JsonPointer.Stringify` | thirdparty/rapidjson/pointer.h:944-975 | The loops over tokens and characters print the string form. |
| `UtfCodecs.BitsAreArithmetic` | thirdparty/rapidjson/encodings.h:102-122 | On 32-bit words, the shifts and masks of the encoders are the divisions and remainders the model uses. |
| `UtfCodecs.DecoderBitsAreArithmetic` | thirdparty/rapidjson/encodings.h:147-161 | So are those of the decoders: appending six bits, masking a lead byte by its type, and joining two surrogates. |
| `UtfCodecs.AcceptsWellFormed` | thirdparty/rapidjson/encodings.h:146-176 | Every well-formed sequence of RFC 3629 is accepted whatever follows it, with its code point, and exactly its bytes are taken. |
| `UtfCodecs.AcceptedIsWellFormed` | thirdparty/rapidjson/encodings.h:146-176 | Whatever the range-table decoder accepts is a well-formed sequence; the end of the input never completes one. |
| `UtfCodecs.DecodesTheStandard` | thirdparty/rapidjson/encodings.h:146-176 | The decoder accepts if and only if the input begins with a well-formed sequence, and then returns the scalar value whose encoding it has taken. |
| `UtfCodecs.DecodesItsEncoding` | thirdparty/rapidjson/encodings.h:102-122 | Decoding the encoding of a scalar value returns it and takes nothing more. |
| `UtfCodecs.SurrogatesAreRefused` | thirdparty/rapidjson/encodings.h:102-176 | Of the code points the encoder takes, exactly the surrogates do not decode. |
| `UtfCodecs.Utf8IsExact` | thirdparty/rapidjson/encodings.h:102-176 | Over whole texts, bytes decode to a sequence of code points if and only if these are scalar values whose encodings make up the bytes. |
| `UtfCodecs.ValidatesAsItDecodes` | thirdparty/rapidjson/encodings.h:179-202 | Validation gives the decoder's verdict and takes the same bytes; it copies them exactly when valid, padded with zeros behind the end otherwise. |
| `UtfCodecs.DecodesTheStandard16` | thirdparty/rapidjson/encodings.h:307-322 | The UTF-16 decoder accepts if and only if the input begins with a character of section 2.1 of RFC 2781, and returns the scalar value whose encoding it has taken. |
| `UtfCodecs.Utf16IsExact` | thirdparty/rapidjson/encodings.h:276-322 | Over whole texts, units decode to code points if and only if these are scalar values whose encodings make up the units. |
| `UtfCodecs.TranscodingInverts` | thirdparty/rapidjson/encodings.h:661-667 | A byte text transcodes to a unit text if and only if the unit text transcodes back to it. |
| `UtfCodecs.TranscodingKeepsText` | thirdparty/rapidjson/encodings.h:661-667 | Transcoding to UTF-16 succeeds exactly on well-formed UTF-8, and keeps the code points. |
| `UtfStreams.EncodeUtf8` | thirdparty/rapidjson/encodings.h:102-122 | Puts the encoding behind what the stream holds. |
| `UtfStreams.DecodeUtf8` | thirdparty/rapidjson/encodings.h:146-176 | The switch over the range table, with its takes and checks, has verdict, code point and rest of the decoder. |
| `UtfStreams.ValidateUtf8` | thirdparty/rapidjson/encodings.h:179-202 | The switch over the range table has verdict, copy and rest of the validator. |
| `UtfStreams.DecodeUtf16` | thirdparty/rapidjson/encodings.h:307-322 | Has verdict, code point and rest of the UTF-16 decoder. |
| `UtfStreams.Transcode` | thirdparty/rapidjson/encodings.h:661-667 | On success one whole character has moved from input to output and kept its code point; on failure nothing is put. |
| `Flowchart.PushKeepsLinks` | src/core/executor.cpp:17-23 | Pushing a node from any list keeps every node in exactly the list its container names, once. |
| `Flowchart.PopKeepsLinks` | src/core/executor.cpp:31-39 | Popping does so too, and the popped node is in no list. |
| `Flowchart.WaitEventKeepsLinks` | src/core/agent.cpp:223-237 | Waiting for an event does so too, also when the event is out of range. |
| `Flowchart.StopKeepsLinks` | src/core/node.cpp:83-99 | Stopping any set of nodes does so too. |
| `Flowchart.PushDoes` | src/core/executor.cpp:17-23 | Pushing takes a node out of whatever list it is in and puts it on top; only its place changes, and all others keep their order. |
| `Flowchart.WaitEventDoes` | src/core/agent.cpp:223-237 | A node that waits leaves its list, becomes the last one that waits for the event, and runs; out of range nothing happens. |
| `Flowchart.StopDoes` | src/core/node.cpp:83-99 | Stopped nodes are idle with the result of a stopped node, no flag, no timer and no list; all others stay as they are. |
| `FlowExecutor.ServeIsTame` | src/core/manager.cpp:461-587 | Wait, event wait, stop-node, stop-flow and return, asked by a running function, touch other nodes only by stopping them; the asking node stays on top, waits, or is stopped. |
| `FlowWaiting.WaitDoes` | src/core/manager.cpp:461-491 | A node that asks to wait for time is armed, runs, will skip its function with a true result, and stays where it is; nothing else changes. |
| `FlowWaiting.WaitForDoes` | src/core/agent.cpp:223-237 | An event node that asks to wait for an event in range is the last in its list, runs, and will skip its function; another node, or an event out of range, is not listed. |
| `FlowWaiting.StopRequestsDo` | src/core/manager.cpp:517-587 | Requests to stop nodes or a flow, or to return, stop exactly the nodes named, and no other node changes. |
| `FlowWaiting.WaitingNodePushesNothing` | src/core/executor.cpp:98-126 | A node whose last effective request is to wait pushes no children in its round, whatever it answers: it runs on, armed or in the list of its event, will skip its function and has the result of its answer. |
| `FlowWaiting.ResumedNodeSkips` | src/core/node.cpp:49-80 | When it runs again its function is not called, and its result selects the children, which come next. |
| `FlowWaiting.ServedNodeExpands` | src/core/executor.cpp:98-126 | A node that neither waits nor stops itself ends and pushes the children its answer selects, on top and in order. |
| `FlowWaiting.ChartsReturn` | src/core/executor.cpp:129-165 | At the end of a run the chart returns by itself exactly when no node runs and none was met running; then every node is stopped, and otherwise nothing changes. |
| `FlowExecutor.RoundIsTracked` | src/core/executor.cpp:64-127 | Every round of the main loop keeps flags and ended nodes within the history, for all functions and requests. |
| `FlowExecutor.ChildrenComeNext` | src/core/executor.cpp:174-195 | Depth first: the children end up topmost on the stack in their order, each once; those that were on it move up, and the rest keeps its order. |
| `FlowExecutor.RunsEndAtRest` | src/core/executor.cpp:41-165 | Whatever the functions do, a run ends with empty stack and history, no flag set, containers consistent, every event waiter running, and no node left ended unless its own function stopped it. |
| `FlowExecutor.StoppedNodePushesNothing` | src/core/executor.cpp:98-126 | A node that stops itself, alone, with its flow or with its chart, and asks for no wait afterwards, ends and pushes no children, whatever it answers. |
| `FlowPlain.CallingKeepsGoing` | src/core/executor.cpp:98-126 | A call keeps the loop invariant: its children cover the edges it selects, and the bound on the remaining rounds goes down. |
| `FlowPlain.ParkingKeepsGoing` | src/core/executor.cpp:93-97 | So does parking a node that has already run. |
| `FlowPlain.PlainRunsAreExact` | src/core/executor.cpp:41-195 | On any chart, cyclic ones included, and from a start node as `StartChart` leaves it, skipping or not, a run of plain functions calls each at most once, and exactly the least set that has the roots of the run and is closed under the selected edges; within the bound of 1 + edges + children of a skipping start it is not capped, and every node ends parked, lost or idle as the number of visits after its call says; the chart ends exactly when no node was visited again. |
| `FlowReach.CallsWhatIsReachable` | src/core/executor.cpp:174-195 | When answers depend on the node alone, the functions called are exactly those of the nodes reachable along the selected edges from the start, or from the children of a start that skips its function. |
| `FlowLoops.VisitsArePaid` | src/core/executor.cpp:76-127 | Every call and every later visit of a node has an edge of its own that was selected and leads into it, or the start of the run. |
| `FlowLoops.FewEdgesLoseNone` | src/core/executor.cpp:76-127 | Whatever plain functions answer: when at most two edges of one kind lead into each node, the start counted as one, every node that is left running waits for the next tick. |
| `FlowLoops.FewSelectedEdgesLoseNone` | src/core/executor.cpp:76-127 | When answers depend on the node alone, only the selected edges from reachable nodes count. |
| `FlowWitness.LoopNodeCanBeLost` | src/core/executor.cpp:79-97 | A chart of two nodes, one entered three times and one once, in which the former is visited twice after its call: it keeps the status of a running node but waits in no list. |
| `FlowSearch.CollectFlow` | src/core/manager.cpp:539-567 | The queue search ends, on cycles too, and collects exactly the nodes reachable from the valid ids over edges of both kinds. |
| `FlowSearch.FlowIsLeast` | src/core/manager.cpp:553-566 | A set that has the valid ids and the children of its members has everything behind the ids. |
| `FlowEngine.Engine.RemoveFromContainer` | src/core/custom_struct.cpp:64-86 | Unlinks a node from the list it is in, found by its container and its link, and clears the container. |
| `FlowEngine.Engine.Unlink` | include/util/list.h:82-88 | Takes a node out of the ring that holds it, which after a swap is not the list its container names. |
| `FlowEngine.Engine.PushNode` | src/core/executor.cpp:17-23 | Detaches the node from any list and puts it on top, as Push says. |
| `FlowEngine.Engine.PopNode` | src/core/executor.cpp:31-39 | Moves the top node to the history, as Pop says. |
| `FlowEngine.Engine.StopNode` | src/core/node.cpp:83-99 | Resets all fields of the node and removes it from its container, as StopAll of that one node says. |
| `FlowEngine.Engine.StopNodes` | src/core/manager.cpp:517-535 | Stops exactly the nodes with valid ids. |
| `FlowEngine.Engine.StopFlow` | src/core/manager.cpp:537-575 | Stops exactly the flow behind the valid ids, in whatever lists its nodes are. |
| `FlowEngine.Engine.StopChart` | src/core/chart.cpp:76-84 | Stops every node and the chart. |
| `FlowEngine.Engine.RunOne` | src/core/node.cpp:49-80 | Runs the function unless the node skips it, serves its requests in order and sets the result unless the node was stopped, as RunNode says. |
| `FlowEngine.Engine.AddSubsequenceNodes` | src/core/executor.cpp:174-195 | Pushes the children the result selects, the first one last, as Expand says. |
| `FlowEngine.Engine.RunTop` | src/core/executor.cpp:76-126 | One round on node objects, as Round says. |
| `FlowEngine.Engine.Run` | src/core/executor.cpp:41-165 | The whole run on node objects, with its main, drain and restore loops, as RunFlow says. |
| `FlowEngine.Engine.SwapAway` | include/util/list.h:42-47 | Exchanges a waiting list with an empty one; no container pointer changes. |
| `FlowEngine.Engine.HandleEvent` | src/core/manager.cpp:402-435 | Swaps the waiting list away and wakes its nodes in turn while runs add to and take from lists, as HandleEvent of the model says. |
| `FlowDispatch.RunsShrinkBatch` | src/core/manager.cpp:409-419 | A run can only take nodes out of the batch being dispatched; it never adds to it or reorders it. |
| `FlowDispatch.EventsWakeOnce` | src/core/manager.cpp:402-435 | Dispatch ends after at most as many runs as nodes waited; each is woken at most once, in waiting order, the first one always; nodes that begin to wait meanwhile are not woken. |
| `FlowDispatch.EventsRunWhatTheyWake` | src/core/manager.cpp:402-423 | Every node that is woken is run, each from the state that the run before it has left, until no node of the batch is left. |
| `NestedEvents.RunFlow` | include/core/executor.h:80-97 | Refused exactly when the stack is used up, and then nothing changes; otherwise the executors in use, their current nodes, the event frames and the current event are afterwards as before, whatever ran inside, and batches have only lost nodes that were unlinked. |
| `NestedActs.ContinueDoes` | include/core/executor.h:99-111 | The owner of a subchart that returns is taken up on the executor below when it is the current node there, and nothing runs; otherwise it is run, or waits for the start event with that queued in front. |
| `NestedActs.RunOrWaitDoes` | src/core/chart.cpp:96-107 | A node runs when an executor is left; otherwise it is the last one that waits for the start event, which is queued. |
| `NestedActs.ActsDo` | src/core/manager.cpp:134-160 | Every act has its effect: a node leaves its list or is listed as waiting, an event is queued or dispatched, a chart started or postponed. |
| `NestedActs.ActsInOrder` | include/core/executor.h:80-97 | The acts of a run are done one after the other, none left out. |
| `NestedActs.RunsDoTheirActs` | include/core/executor.h:80-97 | A run does all its acts on an executor of its own, and gives that back. |
| `NestedActs.DispatchBegins` | src/core/manager.cpp:425-459 | A trigger is dispatched in a frame of its own with its event current, an event from the queue without a frame; the waiting list is then the innermost batch. |
| `NestedEvents.WakingShortens` | src/core/manager.cpp:402-423 | One turn of a dispatch takes the first node out of the batch and runs it, and goes on with what that leaves. |
| `NestedEvents.TriggerEvent` | src/core/manager.cpp:437-459 | Restores current event, frames and executors; refuses only when the frames are used up, and then changes nothing. |
| `NestedEvents.HandleBatch` | src/core/manager.cpp:402-423 | The loop ends although runs within it dispatch and swap away lists, and it leaves its batch empty. |
| `NestedEvents.TriggersNest` | src/core/manager.cpp:437-459 | A trigger takes the nodes that waited when it came: each at most once, in waiting order, the first always, the others unless they were unlinked meanwhile; they are woken if and only if an executor is left. |
| `NestedWaiting.NewWaitersAreKept` | src/core/manager.cpp:425-435 | After an event is handled its waiting list has exactly the nodes that began to wait for it meanwhile and have not been unlinked, woken or lost since; they are there for the next event. Those that began to wait for another event are in its list. |
| `NestedWaiting.WaitersAreExact` | src/core/agent.cpp:223-237 | In every sequence of calls on a new manager a node is in a waiting list if and only if it began to wait for that event and has not been unlinked, woken or lost since, however deep events nest. |
| `NestedEvents.LastExecutorLosesAll` | src/core/manager.cpp:409-419 | On the last executor a trigger counts as dispatched and is not queued, but no node runs and all have left their list. |
| `NestedEvents.FramesAreNeverRefused` | src/core/manager.cpp:443-459 | In every sequence of calls on a new manager, with all scripts: no trigger is refused, no node is linked twice, nothing stays in use between calls, and nodes are lost only on the last executor. |
| `NestedEvents.NodesCanBeLost` | src/core/manager.cpp:409-419 | A script with which a waiting node leaves its list and is not run. |
| `NestedManagers.NestedManager.RunFlow` | include/core/executor.h:80-97 | Saves, changes and restores the executor in use, with the outcome of RunFlow. |
| `NestedManagers.NestedManager.ContinueFlow` | include/core/executor.h:99-111 | Has the outcome of ContinueFlow. |
| `NestedManagers.NestedManager.TriggerOrQueue` | src/core/manager.cpp:152-157 | Has the outcome of TriggerOrQueue: the event is dispatched or queued, never both. |
| `NestedManagers.NestedManager.TriggerEvent` | src/core/manager.cpp:437-459 | Saves and restores the frame count and the current event, with the outcome of TriggerEvent. |
| `NestedManagers.NestedManager.HandleBatch` | src/core/manager.cpp:402-423 | The loop over a list in memory that nested runs shorten has the outcome of HandleBatch. |
| `NestedManagers.NestedManager.HandleEvent` | src/core/manager.cpp:425-435 | Has the outcome of HandleEvent, for an event from the queue. |
| `ChartTree.StoppingIsComplete` | src/core/chart.cpp:76-84 | Stopping a chart leaves every node of it and of all charts it owns, however deep, idle with the result of a stopped node, without flags and in no list, their charts ended, timers inactive and wait-all flags cleared; attachers stay, nothing outside changes, and lists keep their order. |
| `ChartTree.NodeStopIsComplete` | src/core/node.cpp:83-99 | So does stopping a node, with everything that its subchart owns. |
| `ChartTree.Chart.Stop` | src/core/chart.cpp:76-84 | Recursion through nodes and subcharts ends, and stops exactly the tree of the chart, as `ChartTree.StoppingIsComplete` spells out. |
| `ChartTree.Node.Stop` | src/core/node.cpp:83-99 | Stops the node and exactly what its subchart owns, as `ChartTree.NodeStopIsComplete` spells out, and keeps all pointers consistent. |
| `ChartTree.NodeIsStopped` | src/core/node.cpp:83-99 | Clearing a node, stopping its attacher and leaving its container, in this order, stops exactly what is below it. |
| `ChartTree.StopKeepsCoherence` | src/core/node.cpp:83-99 | Whatever is stopped, nodes, charts, attachers and lists still point to each other consistently. |
| `ChartTree.StopCharts` | src/core/agent.cpp:254-263 | Stopping an agent stops the trees of all its charts and nothing else. |
| `ChartTree.Node.CallSubchart` | src/core/manager.cpp:589-651 | A first call makes a chart of fresh nodes, owned by the node; a later one takes the same chart; the node runs and all stays consistent, so that stopping covers the new chart. |
| `ChartTree.AdoptKeepsCoherence` | src/core/manager.cpp:627-637 | Attaching a new chart to a node keeps the tree well founded. |
| `ChartTree.Chart.Init` | src/core/chart.cpp:60-73 | Makes the given number of nodes in their initial state. |
| `ChartTree.OpensWhenAllArrived` | src/core/node_timer.cpp:80-104 | A wait-all node opens at the first arrival with which all have arrived, not before, and is then as in the beginning. |
| `ChartTree.NodeWaitAll.Run` | src/core/node_timer.cpp:80-104 | The loops over the flags have the outcome of Arrive. |
| `ChartTree.NodeWaitAll.Stop` | src/core/node_timer.cpp:106-112 | Clears the flags of this node only. |
| `EventQueues.DispatchTimes` | include/core/event_queue.h:24-35 | In every run what was raised is exactly what its raising actions name, in order and with their stamps; each event is dispatched at most once and exactly in its due step, and has been dispatched when that step has ended: the next step for a deferred event, the running one for an immediate event raised by a handler, the second next for an immediate event raised between steps. |
| `EventQueues.DeferredInOrder` | include/core/event_queue.h:24-35 | Deferred events are dispatched in the order in which the run raises them, across all steps. |
| `EventQueues.EventManager.Event` | src/core/manager.cpp:134-160 | Queues the event, stamped: an immediate one in front of what is being dispatched, a deferred one behind what waits for the next step. |
| `EventQueues.RaisesAreQueued` | include/core/event_queue.h:26 | All that a handler raises is queued: deferred events in their order, immediate ones in front, the last one first. |
| `EventQueues.StepIsARun` | src/core/manager.cpp:116-124 | A step of the manager is a legal run, so that all that is said of runs holds of steps. |
| `EventQueues.EventManager.Step` | src/core/manager.cpp:116-124 | The drain ends for every finite number of raises by handlers and leaves nothing to dispatch; its outcome is that of the specified drain. |
| `EventQueues.StepsKeep` | src/core/manager.cpp:116-124 | A whole step keeps the invariant behind the dispatch times, whatever its handlers raise. |
| `RingLists.Insert` | include/util/list.h:63-69 | Linking between two neighbours makes a ring with the node in that place. |
| `RingLists.Remove` | include/util/list.h:82-88 | Unlinking through the node's own pointers makes a ring without it, clears its pointers and leaves all links but its neighbours alone. |
| `RingLists.LinkedList.Swap` | include/util/list.h:42-47 | The list objects exchange their rings and stay valid, also when they are one object. |
| `RingLists.RemoveAfterSwap` | src/core/manager.cpp:425-435 | A node of a list that was swapped away is unlinked from the batch, while the original list object keeps what was pushed to it later. |

## Left out

- TimerWheels.TimerWheel.ScheduleInRange: demands that the picked delay is positive, which `schedule` asserts of it; `TimerArith.RangeDeltaInRange` shows that from an end of 2^56 on it need not lie in the range.
- TimerWheels.TimerWheel.AdvanceOuter: `advance` of a level above 0 is only ever called with delta 1, so only that case is modelled.
- TimerWheels.TimerWheel.Advance: demands that the clock stays below 2^64 and does not model its wrap-around; a limit of 0 is modelled as the greatest one, 2^64 - 1, which it wraps to.
- TimerRuns.RunsRefineFlat: promotions are not in the history, since no caller can see them; the order of events due at the same tick is whatever the lists give and is not stated.
- `ticks_to_next_event` is left out: on a wrap it looks at one outer level only.
- Destructors, and events that are destroyed while active, are left out; an event's address is its index in a fixed pool.
- AgentTimers.AgentDoesNotDrift: the agent's timer is started without an extra delay; other callbacks leave it alone, and whether the agent runs is a function of the history.
- FlowExecutor.RunsEndAtRest: covers one chart without subcharts or wait-all nodes, with one agent and one executor; nesting is in NestedEvents, wait-all nodes and subcharts are in ChartTree.
- FlowPlain.PlainRunsAreExact: demands that no node disables the loop check, and that nothing but the start node is under way when the run begins.
- FlowLoops.FewEdgesLoseNone: goes one way; with more edges it depends on the order of the visits whether a node is lost, since two visits become one when the node is still on the stack. `FlowPlain.PlainRunsAreExact` says it exactly for each run.
- FlowDispatch.EventsWakeOnce: all waiting nodes belong to the one chart of the model; that nodes which begin to wait meanwhile are kept is stated where waiting is recorded, in NestedWaiting.
- NestedEvents.RunFlow: what a run does is a finite sequence of acts that may depend on all that happened before, where FlowExecutor has the executor's rounds; an act names a node that leaves its list, and the stack it is pushed to is not kept. One agent's lists stand for those of all agents.
- ChartTree.Node.CallSubchart: a later call is taken to name the same chart and agent; replacing the subchart by another one deletes objects, which is left out.
- ChartTree.Chart.Stop: clearing the script variables of a chart is left out.
- FlowEngine.Engine.ServeRequest: the due time of a wait is left out, only whether a timer is armed is kept; resuming a node when its timer fires is a run like any other.
- FlowEngine.Engine.RemoveFromContainer: a node pointer in a list is the node's id, and the three container classes share one type of place; the links themselves are in RingLists.
- FlowEngine.Engine.Remove: demands, as its callers ensure, that the node is on the stack or in no list.
- EventQueues.EventManager.Step: only the event part of a step; timers, asynchronous calls and dying agents are left out.
- RingLists.LinkedList.PushBack: `clear` is left out; it leaves the sentinel pointing into the old ring and is only used before the ring is freed.
- JsonAutomaton.ParsersAgree: string scanning and double conversion are parameters that must consume input when they succeed, and fail with codes of their own; `IterativeParseNext`, in-situ parsing, numbers as strings, NaN and infinity are left out.
- JsonStrings.ReadString: without validation of the encoding, which is off by default; the writer writes UTF-8 and does not validate either.
- JsonWriter.Writer.Write: printing of doubles is a parameter; flushing, raw values and pretty printing are left out.
- JsonNumbers.ParseNumber: fractions, exponents and everything the double path computes are a parameter.
- JsonDom.AcceptBuilds: element counts are unbounded, where the original has 32 bits; copying and memory of strings is left out.
- PointerIndexes.TokenIndex: an index has 32 bits, as by default.
- UtfStreams.EncodeUtf16: demands a scalar value, as the assertions of the original do; byte order, UTF-32, ASCII and the run-time choice of encoding are left out.
- Script bindings, logging, the debugger, and loading charts from files are left out.
