# HAKit: verified models of the engine, the event loop and the links

HAKit is an event-driven automation engine written in C. A tile is a set of objects whose pads are
wired by nets; values travel from OUT pads to input pads through class handlers; everything runs in
one thread, driven by timers and descriptors; tiles talk to each other over HKCP, a line-based text
protocol; values are kept in in-memory traces and in binary history files.

Each module models one part of it, in the form the C code has: objects with fields are classes,
loops are loops, and every method is proved against a specification on plain values, about which the
main results are then proved.

| module | models | main results |
|---|---|---|
| `Wiring` | pads, nets, merging and recycling (`core/mod.c`) | wiring computes the equivalence closure of the links; live net ids are unique |
| `Logic`, `Propagation` | value propagation, and/or gates, endpoints (`core/mod.c`, `core/endpoint.c`, `classes/and`, `classes/or`) | propagation terminates on any wiring, restores every lock and offers each value to every other input of its net once; acyclic logic settles, in a state that is a function of the external values |
| `EventTable`, `EventLoop` | the source table and the loop (`os/linux/sys.c`) | tags and descriptors stay unique, callbacks get their own events, nothing due is forgotten, sources go only by request or after being called, poll is asked for output exactly as needed; no removed source is called in a run whose requests leave no write handler on one; with delays in bounds every wait ends when it should; what breaks either is characterised exactly |
| `IntCodec`, `HistoryReader`, `History` | the history file (`classes/history`) | what the reader recovers, and exactly when that is everything |
| `Framing`, `Tokenizer`, `Commands`, `SetLines` | from received bytes to assigned sinks (`core/command.c`, `core/str_argv.c`, `core/hkcp_cmd.c`), and the two printers of `set` lines | framing ignores fragmentation, in-place splitting refines a pure tokenizer, `set` round trip in both forms |
| `Bufs` | growing buffers and the write queue (`core/buf.c`, `os/linux/tcpio.c`) | no byte is lost, duplicated or reordered |
| `Replication`, `Hkcp` | nodes, subscriptions, updates (`core/hkcp.c`) | for any interleaving of a node's answer with updates and partial writes, exactly the sources asked for are attached, and the bytes sent and queued give every sink that asked its source's value, when all sinks that ask are first of their bare names; one such sink has it exactly when it is the first of its bare name and that value was the last said under it |
| `Trace` | trace ring and windowed dump (`core/trace.c`) | the ring holds the last samples; a dump draws the trace's own signal |
| `TileLoader` | reading a tile file (`core/mod_load.c`) | logical lines do not depend on read sizes |
| `Timers` | timer-on, timer-off, timer-pulse (`classes/timer-*`) | what the output says of the input's history, over whole runs |

Properties that the code does not have, each with the condition under which it holds:

- A removed source can still have its write handler run: when it is removed with `sys_remove_fd`, which
  leaves the handler in place (`os/linux/sys.c:147-158`), and when a handler is set on a tag already
  removed with `sys_remove`, since the slot is still found by its tag (`os/linux/sys.c:205-223`).
  `LateByDescriptor` and `LateByTag` are such runs from an empty table. `IoCallback` says exactly when
  it happens in one callback, `Apply` which requests lead there. Over a whole run no removed source is
  called unless some callback run made such a request, in the world it began in (`Run`, exact for the
  requests). None does when no handler is ever set; nor when no handler is set on a tag removed
  earlier and no source that is given a handler is removed by its descriptor, however many others are.
- The poll timeout is computed on 64 bits and passed as an `int`, and a timer already due is not
  counted. The computed timeout is the exact wait iff no live timer is already due (`WaitIsExactIff`);
  what poll is given is then exact iff some timer is due in less than 2^31 ms, or there is none
  (`PollExactIff`). Delays of at least 1 ms, and below 2^31 ms less the time spent in timer callbacks,
  are enough (`Run`). A loop whose only timer has a delay of 0 and a callback that goes on, or a delay
  of 2^32 - 1 ms, sleeps for ever (`ZeroDelayStalls`, `LongDelayStalls`).
- The wait is computed from a time read before the timer callbacks run: the loop wakes after the
  earliest deadline by exactly the time they took (`Wakes` in `Turn` and `Run`).
- The history writer can emit at most seven-byte forms, since the bounds for eight wrap: values
  outside [-2^55, 2^55) leave no entry. A clock going back is logged modulo 64. A text loses its
  first byte on reading. `RecoversIff` gives the exact condition for a faithful log.
- A line may yield one more, empty, argument: exactly when something is left unread after the last
  one (`ExtraIff`). In a line without quotes and backslashes that is when the line is a single blank
  or ends with two blanks (`UnreadPlain`).
- The bytes printed for an update as `set name=value` are heard as that update exactly when name and
  value are plain words and the name has no `=` (`SetLineIff`); in the quoted form, for a plain name,
  exactly when the value has no quote, backslash, newline or NUL (`QuotedLineIff`, and
  `QuotedUnderstoodIff` on the sinks).
- Sinks subscribe by `tile.name` when full names are in use, but updates carry the bare name
  (`core/hkcp.c:432`, `core/hkcp.c:483`). A sink follows what is said under its name exactly when it
  is the first sink of that name (`FollowsIff`). It holds the value of the source it asked for exactly
  when, besides, that value was the last said under the name, which another tile's source may share
  (`HoldsIff`); it was if all sinks that ask are first of their names (`AskerHolds`). With two tiles that each have a sink `x`,
  the second is never updated (`SecondTileNeverReached`).

## Model

| member | source | states |
|---|---|---|
| Wiring.Tile.NetCreate | core/mod.c:235-268 | a free net entry is reused, else a net is allocated; either way it is live, empty, pushed again, and its id is its first table position plus one; other ids stay |
| Wiring.Tile.NetConnect | core/mod.c:279-296 | a pad that has a net already is refused; otherwise pad and net point to each other |
| Wiring.Tile.MovePads | core/mod.c:309-313 | all pads of the second net end up on the first, in order |
| Wiring.Tile.NetMerge | core/mod.c:299-317 | merging moves exactly the pads of the second net and frees it; merging a net with itself changes nothing; the tile stays consistent |
| Wiring.Tile.ObjNet | core/mod.c:394-449 | one link joins the groups of its two pads and no others; an unresolved reference changes nothing |
| Wiring.Tile.LinkAll | core/mod.c:394-449 | after any sequence of links, two pads share a net iff the initial wiring plus the resolved links connect them |
| Wiring.Tile.LabelsAreNets | core/mod.c:235-268 | live net ids are unique: two pads carry the same id iff they are on the same net |
| Wiring.AddLink | core/mod.c:426-443 | what one link adds to the equivalence closure of the earlier ones |
| Wiring.ClosureStep | core/mod.c:426-443 | a wiring that is the closure of the links so far, changed as one more link changes it, is the closure of all of them |
| Logic.DeliverStep | core/mod.c:159-166 | one more input reached keeps all gates right and all other connections in agreement |
| Logic.EvaluateEmit | classes/and/main.c:81-102 | a gate that emits ends showing its function, with nothing upstream of it disturbed |
| Logic.EmitIsAllowed | classes/and/main.c:97-101 | when a gate emits, every other gate is right and the value is the one its function gives |
| Logic.GateTakes | classes/and/main.c:105-109 | an input that took a value leaves the tile right everywhere else |
| Logic.GateMayEvaluate | classes/or/main.c:105-109 | storing a new input state leaves only the pad's own gate to be re-evaluated |
| Logic.DeliveryKeepsSettled | core/endpoint.c:386-420 | a delivery from an external output ends with every gate right and every input equal to its driver |
| Logic.BlankIsReady | core/mod.c:661-680 | before anything is set, a preset-free tile meets the condition of the start pass |
| Logic.SettledIsUnique | classes/and/main.c:81-102 | two settled states with the same external values agree on every output: the tile computes its boolean function, however the values got there |
| Logic.TruthIff | classes/and/main.c:105-109 | whatever blanks, sign and rest surround them, a text is on iff one of the decimal digits it starts with is not zero |
| Logic.TruthParts | classes/and/main.c:105-109 | every text has such parts, so that the rule decides all of them |
| Logic.SettledMeans | classes/or/main.c:81-102 | in a settled tile an and gate shows "1" iff all its connected inputs are on, an or gate iff one is, the other way round when inverted; an input is on iff the text of its driver is |
| Propagation.PeersAreNets | core/mod.c:159-163 | the pads walked from a pad are exactly those with its net id, each once |
| Propagation.GraphIsWellFormed | core/mod.c:159-163 | a consistently wired tile gives propagation a well-formed graph |
| Propagation.OfferedOnce | core/mod.c:159-166 | on distinct pads, the offers of one update go to every other input of the net, once each, and to no other pad |
| Propagation.Engine.UpdateStr | core/mod.c:142-170 | terminates on any wiring, cycles included, with all locks restored, having made exactly the offers of its net, what they lead to coming with more locks held; on acyclic logic the value reaches every input and everything behind it settles, with no locked input met |
| Propagation.Engine.UpdateInput | core/mod.c:125-139 | a locked input refuses with a warning and changes nothing; otherwise its lock is held during the handler and released; either way this is one offer |
| Propagation.Engine.GateUpdate | classes/and/main.c:81-102 | an output that did not change, and was emitted once, emits nothing and leaves all as it was; otherwise "1" or "0" is offered to the net, once; after it the gate shows its function and owes no first output |
| Propagation.Engine.GateOutput | classes/or/main.c:81-102 | the scan that stops at the first deciding input computes the boolean function of all connected inputs, inverted if asked |
| Propagation.Engine.SourceUpdate | core/endpoint.c:664-696 | a locked source refuses; otherwise its value is stored, survives whatever the local sinks trigger, and is offered to each of them, once and in no other way |
| Propagation.Engine.SinkUpdate | core/endpoint.c:386-420 | a locked sink refuses; otherwise it holds the value on return and its pad offered it to its net, once |
| Propagation.Engine.CustomInput | core/mod.c:125-139 | any class whose handler only updates the object's own OUT pads terminates and restores the locks |
| Propagation.Engine.Drive | core/endpoint.c:386-420 | driving an external output of a settled acyclic tile ends settled, without a refused update, having offered the value once to each input of the net |
| Propagation.Engine.Start | core/mod.c:671-679 | the start pass settles a preset-free acyclic tile |
| EventLoop.Loop.SourceAdd | os/linux/sys.c:73-100 | the first free slot is taken with a tag not in use nor used before, below 2^32 registrations; a full table changes nothing |
| EventLoop.Loop.SysRemove | os/linux/sys.c:118-129 | the slot of that tag, and only it, awaits removal with both callbacks gone |
| EventLoop.Loop.SysRemoveFd | os/linux/sys.c:147-158 | the slot watching that descriptor, and only it, awaits removal, keeping its write handler, which is orphaned if there is one |
| EventLoop.Loop.IoSourceAdd | os/linux/sys.c:174-183 | a descriptor already watched keeps its slot; otherwise it gets a new one; at most one live slot per descriptor |
| EventLoop.Loop.SysIoWatch | os/linux/sys.c:186-202 | the descriptor is watched for reading, in its old slot or a new one |
| EventLoop.Loop.SysIoPoll | os/linux/sys.c:226-243 | the descriptor is watched with the events asked for, its callback seeing them |
| EventLoop.Loop.SysIoWriteHandler | os/linux/sys.c:205-223 | the slot of that tag gets or loses its write handler, even while it awaits removal, which orphans the handler |
| EventLoop.Loop.SysTimeout | os/linux/sys.c:246-259 | a timer due its delay after the time read is added and disturbs no other slot |
| EventLoop.Loop.SysChildWatch | os/linux/sys.c:262-274 | a child watcher is added and disturbs no other slot |
| EventTable.AddsOne | os/linux/sys.c:73-274 | a request for a new source fills the first free slot, under the next tag, with what it names: descriptor and events, deadline its delay after the time read, or child; no other slot changes |
| EventTable.ChangesOne | os/linux/sys.c:118-243 | any other request changes only the first slot of its tag, or that watches its descriptor, as it says |
| EventLoop.Loop.Apply | os/linux/sys.c:118-288 | each request has exactly its effect on table, tags and clock, keeps the table consistent, and orphans a write handler iff it removes by descriptor a source that has one or sets one on a removed source |
| EventLoop.Loop.Invoke | os/linux/sys.c:291-334 | the requests of a callback take effect in order, orphan a handler iff one of them does in the world it is made in, which is logged, and give no slot in use to another source while it runs |
| EventLoop.Loop.IoCallback | os/linux/sys.c:296-319 | the calls made for a descriptor, its write handler included; a removed source is called exactly when its callback goes on, left a write handler in the slot, and output is possible; output is no longer asked for exactly when it was possible and there is no handler or it returned 0, and is otherwise as the requests left it |
| EventLoop.Loop.WriteBack | os/linux/sys.c:304-315 | the write handler runs if output is possible; once it returns 0, or if there is none, output is no longer asked for; nothing else changes but by its requests |
| EventLoop.Loop.OrphanedWriteRuns | os/linux/sys.c:147-158 | a callback that removes its own descriptor by `sys_remove_fd` has its write handler run afterwards |
| EventLoop.Loop.RemovedWriteRuns | os/linux/sys.c:205-223 | so has one that removes its own tag by `sys_remove` and then sets a write handler on it |
| EventLoop.Loop.Callback | os/linux/sys.c:291-334 | the slot keeps its source throughout, and is cleared exactly when the callback says so; calls carry the source's own tag, descriptor and events; a source is cleared only after it was called |
| EventTable.DeadForOn | os/linux/sys.c:118-334 | over any stretch of a run, a source is gone only if a request in it removed it, by its tag or by a descriptor it was given out for, or its own callback ran in it |
| EventLoop.Loop.ScanTimers | os/linux/sys.c:385-399 | every timer due is called or was removed; whatever callbacks did, every live timer is then due after `now`, or its delay after `now` or later |
| EventLoop.Loop.BuildPoll | os/linux/sys.c:401-430 | the entries given to poll are exactly the descriptors watched, in order, each asking for output iff its slot does; slots awaiting removal are freed, and the timeout is computed |
| EventLoop.Loop.Dispatch | os/linux/sys.c:443-458 | each call is for a source watched at the poll and sees what poll reported for its own descriptor; every source ready to read was called or removed, and every `sys_io_poll` source ready in any way; so was the write handler of every source ready to write that no callback touched meanwhile; a descriptor that was ready to write, with no handler or one that said it is finished, is not asked for output any more, unless it was touched |
| EventLoop.Loop.WaitPid | os/linux/sys.c:337-364 | every watcher of a child that ended is gone, after its callback ran unless a request removed it |
| EventLoop.Loop.Turn | os/linux/sys.c:372-462 | one turn: due timers, ready descriptors and ended children are all served, calls see their own events, a handler is orphaned iff some callback run made a request that does so, and the `int` given to poll ends the wait late by exactly the time spent in timer callbacks; poll is given the descriptors watched, each with whether output is asked for, and a finished writer is not asked for it any more |
| EventLoop.Loop.Run | os/linux/sys.c:367-462 | over whole runs with delays from 1 ms to 2^31 ms less the time in timer callbacks, every wait given to poll is exact from `now`, ends that time late, and has no end iff there is no timer; a handler was orphaned iff a callback run made a request that does so in the world it began in, and if none was no removed source is ever called, as with harmless requests and scripts |
| EventLoop.LateByDescriptor | os/linux/sys.c:147-158 | from an empty table, a source watched, given a handler and removed by descriptor in its read callback has its write handler run after that |
| EventLoop.LateByTag | os/linux/sys.c:205-223 | so has one removed by tag and given a handler again in its read callback |
| EventLoop.ZeroDelayStalls | os/linux/sys.c:392-416 | with a delay of 0 a live timer is due and poll is given -1 |
| EventLoop.LongDelayStalls | os/linux/sys.c:434 | with a delay of 2^32 - 1 ms poll is given -1 while a timer is live |
| EventLoop.OneTimer | os/linux/sys.c:380-399 | a timer is due its delay after it was set, and once expired its delay after the time of that turn |
| EventTable.WaitBounds | os/linux/sys.c:408-416 | the computed timeout is the least time left among the timers due later |
| EventTable.WaitIsExactIff | os/linux/sys.c:408-416 | it is the exact wait iff no live timer is already due |
| EventTable.PollExactIff | os/linux/sys.c:434 | with no timer already due, the `int` given to poll is the exact wait iff some timer is due in less than 2^31 ms or there is none |
| EventTable.PollWakes | os/linux/sys.c:374-434 | delays from 1 ms to 2^31 ms less the time since `now` make it exact, and late by that time only |
| EventTable.ActsFollow | os/linux/sys.c:118-288 | whatever requests are made, a slot in use keeps its source or awaits removal, new timers are due their delay later, and a descriptor no request concerns keeps its slot |
| EventTable.HarmlessIsCareful | os/linux/sys.c:118-223 | scripts that set no write handler, or set none on a tag removed before and never remove by its descriptor a source given one, make only such requests over any run |
| EventTable.AddKeeps | os/linux/sys.c:73-100 | a new registration keeps live tags distinct and non-zero and descriptors unique |
| IntCodec.EntryReadsBack | classes/history/history.c:48-68 | an entry is written iff the value fits 56 bits; it is the shortest two's-complement form and its operand reads back as the value |
| IntCodec.RoundTrip | classes/history/hakit-history.c:30-43 | any form wide enough for a value reads back as that value |
| IntCodec.AppendValue | classes/history/history.c:48-68 | the search over lengths with wrapping bounds appends exactly that entry |
| IntCodec.ReadValue | classes/history/hakit-history.c:30-43 | the mask-and-overwrite loop computes the sign-extended value |
| HistoryReader.RunAppend | classes/history/hakit-history.c:128-221 | reading is sequential: complete input followed by more reads as the one, then the other |
| HistoryReader.DumpFile | classes/history/hakit-history.c:111-239 | the decode loop prints what the operation-by-operation reading gives; at a cut it fails only in a declaration, and otherwise completes the operand with what its buffer held |
| HistoryReader.ScanStr | classes/history/hakit-history.c:46-82 | a string is the bytes up to the first NUL |
| History.RunFeed | classes/history/history.c:171-250 | the bytes of one feed are read as one line at the writer's time with its signal, reader and writer in lockstep; framing survives texts |
| History.RunText | classes/history/hakit-history.c:153-166 | a non-empty text is read without its first byte, and the reader resumes at the next operation |
| History.RecoversIff | classes/history/history.c:171-250 | everything fed is recovered, texts less one byte, iff numbers are below 2^55 and the clock never goes back |
| History.DigitsIff | classes/history/history.c:226-233 | the texts logged as numbers, the empty one aside, are exactly the decimal forms, with any zeros before them |
| History.NumberOfDecimal | classes/history/history.c:228-233 | the decimal form of n, with any zeros before it, is read as n |
| History.LineOfDecimal | classes/history/history.c:216-250 | feeding the decimal form of n is read back as n if n is below 2^55, and leaves no line otherwise |
| History.EachRecovered | classes/history/history.c:171-250 | a faithful log gives back every call, in order, at its time and under its signal, with the number its text stands for, or its text less the first byte |
| History.EntryLayout | classes/history/history.c:48-68 | the bytes of an entry, written out: operation and length in the first, then the operand, most significant byte first |
| History.Layout | classes/history/history.c:171-208 | the bytes of selections, times, numbers and texts, written out |
| History.DriftSigns | classes/history/history.c:181-190 | the reader's clock is never behind the writer's, and equals it while the clock does not go back |
| History.History.Declare | classes/history/history.c:139-147 | a declaration is appended to the header and found by the reader under its id |
| History.History.Select | classes/history/history.c:171-191 | a signal change, then the elapsed time, are logged only when they differ |
| History.History.Feed | classes/history/history.c:216-250 | a feed appends selection, time and value and keeps writer and reader in lockstep |
| History.History.Flush | classes/history/history.c:97-128 | for every choice of flush points, the file is the header once followed by the bucket, and reads back as recovered |
| Tokenizer.StrShift | core/str_argv.c:18-24 | the rest of the string moves one place left, nothing else |
| Tokenizer.QuotedStep | core/str_argv.c:48-69 | inside quotes, shifting and moving on keeps what the argument will be |
| Tokenizer.StrArgv | core/str_argv.c:27-105 | the pointers denote the pure token list of the line; nothing before the line or from its NUL on is touched |
| Tokenizer.ExtraIff | core/str_argv.c:32-89 | the arguments are those begun by a non-blank, and one more, empty, exactly when something is left unread after the last |
| Tokenizer.UnreadPlain | core/str_argv.c:32-89 | without quotes and backslashes, something is left unread exactly when the line is one blank or ends with two |
| SetLines.PlainIff | core/str_argv.c:34-41 | the ordinary characters are those above the space, quote and backslash aside, and below 128 where `char` is signed |
| SetLines.SpacedTokens | core/str_argv.c:27-105 | words of such characters, with any gaps of characters up to the space, are returned as they are; a second blank at the end gives one more, empty |
| SetLines.EscapedToken | core/str_argv.c:48-80 | any text whose characters each follow a backslash is one argument, with or without quotes around it |
| SetLines.QuotedToken | core/str_argv.c:48-69 | a text in quotes is one argument, blanks included, and what follows the closing quote up to a blank is dropped |
| Framing.FeedAppend | core/command.c:32-57 | lines do not depend on where the stream is cut |
| Framing.Command.Recv | core/command.c:19-61 | exactly the non-empty lines completed are dispatched, the rest is kept |
| Framing.NodeReader.Recv | core/hkcp.c:223-264 | the other buffering dispatches the same lines and keeps the same rest |
| Framing.ReceiveBoth | core/hkcp.c:233-263 | on any fragments both receivers deliver the lines of the whole stream |
| Commands.RetrieveByName | core/endpoint.c:221-263 | the first endpoint whose name, and tile when full names are in use, match |
| Commands.NamedIff | core/endpoint.c:221-263 | a bare name denotes endpoints of that name; `tile.name` too, of that tile only when full names are in use |
| Commands.CommandSet | core/hkcp_cmd.c:24-55 | each argument assigns its sink or adds its error text, in order |
| Commands.SetOneMeans | core/hkcp_cmd.c:28-53 | `name=value` assigns the first sink of that name and adds no text; without one, or without `=`, no sink changes and the error text is added |
| SetLines.ReplyToSet | core/hkcp_cmd.c:24-55 | the answer to a whole line with one argument: nothing, or the error text |
| Commands.ExecIsAsked | core/hkcp_cmd.c:24-55 | a line does to the sinks what its `name=value` arguments ask, in order |
| Commands.AssignedValue | core/hkcp_cmd.c:37-41 | each sink ends with the value of the last update that names it; the others stay |
| Commands.Connection.Recv | core/hkcp.c:537-594 | any received bytes, framed, cut at NULs, split in place and executed, give the sinks the specification gives, and send back exactly the replies to the lines, in order |
| Commands.ReceiveIsHeard | core/hkcp_cmd.c:24-55 | bytes do to the sinks what the updates they ask for do, in order |
| SetLines.SetLineIff | core/hkcp.c:478-486 | the printed bytes are heard as their update iff name and value are plain words and the name has no `=`, whether `char` is signed or not |
| SetLines.LegibleIsHeard | core/hkcp.c:478-486 | with the line and the characters written out: `set name=value` and a newline are heard as the update |
| SetLines.QuotedLineIff | ui/hakit.js:61-64 | the quoted bytes are heard as their update iff the value has no quote, backslash, newline or NUL |
| SetLines.QuotedUnderstoodIff | ui/hakit.js:61-64 | they assign it in every table of sinks iff the value is such |
| SetLines.TokenShorter | core/str_argv.c:27-105 | no argument is as long as its line, unless the line is one plain word |
| SetLines.SetRoundTrip | core/hkcp.c:478-486 | clean updates, printed in either form and cut anywhere, are assigned exactly, in order |
| SetLines.DeliverAll | core/command.c:32-57 | so are they by the receiving code as it runs, fragment by fragment |
| Bufs.Buf.Grow | core/buf.c:42-58 | a block large enough stays; otherwise the contents move to the smallest number of 256-byte chunks that leaves one byte, the rest cleared |
| Bufs.Buf.Append | core/buf.c:61-72 | contents are the old followed by the new, NUL after them |
| Bufs.Buf.Set | core/buf.c:117-128 | contents are replaced |
| Bufs.Buf.Shift | core/buf.c:145-161 | the first bytes are dropped in place |
| Bufs.WriteQueue.Write | os/linux/tcpio.c:476-495 | bytes sent followed by the queue are all bytes written |
| Bufs.WriteQueue.WriteEvent | os/linux/tcpio.c:448-473 | a partial write moves exactly the bytes the kernel took |
| Replication.SayKeeps | core/hkcp.c:454-486 | queueing a source's value settles that source and keeps what is said under every name up to date |
| Replication.AttachKeeps | core/hkcp.c:63-73 | attaching a source leaves at most that one to be told |
| Replication.OnLinesKeeps | core/hkcp.c:164-220 | any received lines keep every attached source told |
| Replication.ChangeKeeps | core/endpoint.c:664-678 | a new value leaves only its own source to be told |
| Replication.AnswerAttaches | core/hkcp.c:164-206 | the sources attached are those asked for before the list ends; with none the node is dropped |
| Replication.Subscription | core/hkcp_cmd.c:156-173 | the answer of the other end attaches exactly the public sources whose name one of its public sinks denotes |
| Replication.AnswerText | core/hkcp_cmd.c:156-173 | the bytes of the answer: name, space, value in quotes and newline for each public sink, then a dot and a newline |
| Replication.HearKeeps | core/hkcp.c:223-264 | a node that kept to what it heard does so after any further fragment: what is attached, and the unfinished line kept, are those of all its bytes, whatever was sent to it meanwhile |
| Replication.AnswerHeard | core/hkcp.c:164-206 | however much of the answer was heard, only sources it asks for are attached; once it is in, exactly those, and more bytes change nothing |
| Replication.InitialsCounted | core/hkcp.c:164-206 | under each name, lines queue one update for each that asks for a public source of that name which is not an event, before the list ends |
| Replication.TidyLines | core/hkcp.c:418-439 | sources whose names and values are clean queue only clean updates, whatever lines arrive |
| Replication.Replicated | core/hkcp.c:418-486 | the undelivered updates, replayed over what was received, give the first sink of a name what was last said under it, the value of every attached source of that name when these agree |
| Replication.FollowsIff | core/endpoint.c:221-240 | a sink follows what is said under its name, whatever it is, iff it is the first sink of that name |
| Replication.HoldsIff | core/hkcp.c:164-206 | whatever the sinks held, the sink that asked for a source ends with its value iff it is the first of its bare name and that value was the last said under it |
| Replication.AskerHolds | core/hkcp.c:164-206 | when only sources asked for are attached and all sinks that ask are first of their bare names, each ends with its source's value |
| Replication.UniqueNamesSuffice | core/endpoint.c:344-362 | askers are first of their bare names when bare names of sinks are unique, as registration without full names makes them |
| Replication.SecondTileNeverReached | core/hkcp.c:432 | with full names and a sink x on two tiles, both subscribe and the second is never updated |
| Hkcp.Node.RecvLine | core/hkcp.c:164-220 | one line of the list: attach once, send the initial value unless it is an event, or end the list |
| Hkcp.Node.Recv | core/hkcp.c:223-264 | any fragment has the effect of its lines, each read up to a NUL |
| Hkcp.Node.SendInitialValue | core/hkcp.c:418-439 | the present value is queued as one line, unless the source is an event |
| Hkcp.Node.HoldsValues | core/hkcp.c:418-486 | for a node with its real queue: bytes sent and bytes queued together give the first sink of a name what was last said under it |
| Hkcp.Node.AskersHold | core/hkcp.c:164-206 | however much of the other end's answer a node has heard, each sink that asked for an attached source ends with its value, when all sinks that ask are first of their bare names |
| Hkcp.Table.NodeAdd | core/hkcp.c:114-153 | a new connection takes the first free entry with nothing attached, heard or sent, and disturbs no other node |
| Hkcp.Table.SetValue | core/endpoint.c:664-678 | a new value leaves only that source to be told, on every node |
| Hkcp.Table.SourceUpdate | core/hkcp.c:454-486 | each node that has the source attached has `set name=value` and a newline queued, once; every other node is left alone |
| Hkcp.Table.CommSourceUpdate | core/comm.c:438-454 | a public source's value is stored and queued; a local one is only stored; a locked one is refused, and the old value of a public source queued all the same |
| Hkcp.Table.NodeRecv | core/hkcp.c:164-264 | a data event changes its own node only, which keeps to what it has heard since it was connected; a node with nothing attached at the end of the list frees its entry |
| Hkcp.Table.NodeWrite | os/linux/tcpio.c:448-473 | a partial write on one node sends that much of what is queued, and changes nothing that any node has heard, attached or logged |
| Hkcp.Table.AllHold | core/hkcp.c:454-496 | at any moment of a run in which names and values of sources were clean, for a node whose bytes so far come from the listing of the other end: every sink there that asked for an attached source not waiting to be queued ends with its value, when all sinks that ask are first of their bare names |
| Hkcp.Table.Happen | core/hkcp.c:114-264 | any event keeps every node told, with what it asked for attached, and leaves its session exactly as that event makes it; a node stays, having heard the bytes for its entry, exactly if those do not end its list with nothing attached |
| Hkcp.Table.Step | core/hkcp.c:454-486 | besides, it queues under each name one update for each line it brings that asks for a value, and one if a source of that name is updated and attached |
| Hkcp.Table.Run | core/hkcp.c:114-496 | so does any sequence of connections, data, updates and partial writes, on any number of nodes; the sources end with the values last given to them unlocked; under each name, a node that stays is queued one update for each line that asks for a value and one for each update of a source of that name made while attached |
| Hkcp.Replicate | core/hkcp.c:164-496 | from an empty table, for any interleaving of the listing of the other end, cut anywhere, with updates, partial writes and other nodes: once it is in, exactly the public sources it asks for are attached, the node being dropped iff there are none; at any time the sinks that asked for an attached source end with its value, when names and values are clean and sinks that ask are first of their bare names; how many updates a node is queued under each name is exactly known |
| Trace.Ring.Push | core/trace.c:68-87 | the ring holds the last samples, depth - 1 at most, in order |
| Trace.Ring.constructor | core/trace.c:22-41 | the depth is the one asked for, 10000 if more, 500 if it is not positive |
| Trace.Ring.DumpWindow | core/trace.c:90-140 | for non-decreasing stamps the scan prints the value known at t1, the samples inside, and the closing value |
| Trace.DumpDrawsSignal | core/trace.c:90-140 | from its first to its last point, a dump draws the very step signal of the trace |
| Trace.DumpIsEmptyIff | core/trace.c:107-127 | nothing is printed iff no sample lies inside |
| Trace.DumpStarts | core/trace.c:113-120 | a dump starts at t1 with the value held before it when that is known, else at the first sample |
| TileLoader.RunIsLines | core/mod_load.c:232-301 | judging each newline by the next character read gives the lines of the whole text |
| TileLoader.Loader.LoadChunk | core/mod_load.c:234-284 | one chunk advances the reader as its sanitised characters do, wherever the chunk ends |
| TileLoader.Load | core/mod_load.c:208-308 | for every chunking, the lines passed are the sanitised text cut at the newlines not followed by a space |
| TileLoader.WrittenRead | core/mod_load.c:234-284 | logical lines, written in any number of parts each but the first starting with a space, are read as they were |
| TileLoader.SanitisedIs | core/mod_load.c:222-227 | newlines and characters from the space to 127 are kept; other control characters become spaces, and those from 128 on where `char` is signed |
| Timers.KeptSince | classes/timer-on/main.c:80-107 | since its last change the input has kept its level |
| Timers.TimerOn.Update | classes/timer-on/main.c:80-107 | a timer is pending iff input is on and output off, due at the rising edge plus the delay |
| Timers.TimerOn.OnMeansHeld | classes/timer-on/main.c:71-107 | while the output is on, the input has been on for at least the delay |
| Timers.TimerOn.Exact | classes/timer-on/main.c:71-107 | with no callback owed, the output is on iff the input is and its edge is that old |
| Timers.TimerOff.Update | classes/timer-off/main.c:80-107 | a timer is pending iff input is off and output on, due at the last falling edge plus the delay |
| Timers.TimerOff.OffMeansReleased | classes/timer-off/main.c:71-107 | while the output is off, the input has been off for at least the delay, or was never on |
| Timers.TimerOff.Exact | classes/timer-off/main.c:71-107 | with no callback owed, the output is on iff the input is, or was less than the delay ago |
| Timers.TimerPulse.Update | classes/timer-pulse/main.c:101-123 | a selected edge starts a pulse, or prolongs it if retriggered; a timer is pending iff the output is on; an idle timer starts at a rising edge, a falling one or both, as selected, and is due its delay later |
| Timers.TimerPulse.Expire | classes/timer-pulse/main.c:92-98 | every pulse ends no earlier than the delay after the last edge that counted, which without retriggering is its first |
| Timers.TimerPulse.Exact | classes/timer-pulse/main.c:92-123 | with retriggering and no callback owed, the output is on iff the last selected edge is less than the delay ago |
| Timers.TimerPulse.ExactOnce | classes/timer-pulse/main.c:92-123 | without retriggering, when callbacks ran before inputs, it is on iff the last accepted edge is, accepted edges being those at least the delay after the one before |

## Left out

- Sockets, TLS, `poll`, processes and files: only the byte counts, events and bytes they give are parameters.
- Classes other than and, or, sink, source and the three timers: any class whose handlers only update its own OUT pads is covered by `CustomInput`; `mux` updates its own input, which breaks termination.
- Presets (`core/mod.c:452-463`): they may emit before a net exists; settling starts from a settled or a preset-free state.
- Propagation.Engine.Drive: acyclic tiles for settling have at most one OUT pad per net and no local source-to-sink link; termination has no such condition.
- Locks of OUT pads: they are set and cleared but no code reads them.
- The run-time fields of pads are sequences indexed by pad position in `Propagation`, so the sharing of one pad object between wiring and propagation is not modelled there.
- `atoi` overflow: digits are read without limit when an input is compared with zero.
- Parsing of `$object.pad` references: `LinkAll` is given their targets, or that they do not resolve.
- The order of local source and sink registration (`core/endpoint.c:344-377`, `core/endpoint.c:586-615`): the two tests of the full-name option contradict each other, so linking depends on it; the links are given.
- `EventLoop` beyond 2^32 registrations: tags wrap and may repeat; results are stated below that.
- EventLoop.Loop.SysIoWriteHandler: setting a write handler on a timer or child slot: it overwrites the slot's other fields through a union.
- The quit phase after the loop, and a failing `gettimeofday`; the clock never goes back in `EventLoop` and `Timers`.
- History rotation and its file names: the rotation test looks at a static object that is never fed (`classes/history/history.c:238`), so the bucket is never rotated; the model has one bucket. Feeds of undeclared signals and declarations after a flush are modelled as code but outside the recovery result.
- Message texts and time formatting are not modelled; a symbol that is not selected prints as missing.
- Failed allocations, sizes beyond an int, the limit on formatted text, and line numbers in messages.
- Commands other than `set`: they do not change sinks; their texts are not modelled, except the list of sinks.
- Propagation behind a sink assigned by `set`, and other writers of the same sink; no sink is locked when a command arrives.
- Watchers (`core/hkcp.c:442-451`), MQTT, web sockets and the HTTP server.
- Reconnection, and the rest of a fragment after its node was removed: one live session.
- Sinks and sources whose bare names hold a dot: updates would be read as naming a tile.
- Trace.Ring.DumpWindow: nothing is claimed for decreasing stamps. `hk_trace_clear` is never called and not modelled.
- The text layout of a dump (`name time,value ...`): its points are modelled.
- Tile lines themselves (sections, objects, nets): `Load` gives the lines; a failing line is not modelled.
- Feedback from a timer's output to its own input, and negative delays.
