# ranger-ext: a verified model of its RPC layer, external runner and sort keys

ranger-ext extends the ranger file manager in two ways.

- **External execution.** Work such as copying or sizing files can run in a separate Python process, with or without `sudo`. Two mechanisms carry it:
  - `external/rpcss.py` frames messages on a pipe, encrypts them with a rekeying AES channel, and runs a small RPC protocol over tokens. One side calls; the other side dispatches and answers.
  - `external/run_external.py` starts a child process. It sends the child a pickled job and reads the child's stdout and stderr as text lines and pickled objects. It can pause, unpause or quit the child.
  - `external/__init__.py` holds the loaders built on this. They round file sizes to ticks, throttle index streams, and collapse the runner's `None` heartbeats. It also has the global `sudo` flag.
  - `external/client.py` is the child's entry point. It scans its `-p` arguments into `sys.path`.
- **Smith-Waterman sorting.** The files of a directory can be sorted by their alignment score against typed text.
  - `smith_waterman/ssw.py` maps characters to the small integers a C aligner works on and builds its score matrix.
  - `smith_waterman/smith_waterman.py` keeps a growing alphabet for parasail and sums scores over the parts of the reference.
  - `smith_waterman/__init__.py` does the same summing over a wrapped key, and switches ranger's sort settings for the `sw_nav` command.

The model is written in Dafny, one module per concern:

| module | file | models |
|---|---|---|
| `Bytes` | bytes.dfy | Python 2 byte strings, `int()`, `readline`, `read(n)` |
| `Framing` | framing.dfy | `write` / `read` / `EOS` and the reader thread's queue |
| `EncryptedChannel` | encrypted_io.dfy | the rekeying counters of `EncryptedIO` |
| `Tokens` | tokens.dfy | `T`, `isT` and the token table |
| `Caller` | caller.dfy | `RpcServer`: `call`, `call_iter`, `call_step` |
| `Dispatcher` | dispatcher.dfy | `RpcClient.run` and all its `_run_*` handlers |
| `Protocol` | protocol.dfy | Round trips between caller and dispatcher |
| `RunExternal` | run_external.dfy | The `send`/`recieve` framing, `StreamReader`, `runExternal`, `Interface`, and the child's control loop |
| `Loaders` | loaders.dfy | `getSize`, size calculation, `deferred_count`, `generate`, `sudo_enabled` |
| `Client` | client.dfy | The `-p` scanner |
| `Ssw` | ssw.dfy | `DefaultGetter`, the charset maps, `set_mat`, `ssw_init` |
| `SortKeys` | sort_keys.dfy | `SwSortKey`, `SwSplitApplySortKey`, `sw_nav.quick` |
| `SwKeys` | sw_keys.dfy | `CaseSensitiveStr`, `SplitTransformKey`, the `sw_nav` settings |
| `Text` | text.dfy | `str.split`, `lower`, `upper`, `islower`, the case rule, `_open` |
| `Options`, `Arith` | options.dfy, arith.dfy | Shared helpers |

Operations that are pure in the source are functions with lemmas. Operations that update state in the source are classes or methods with loops. A method either ties its result and new state to a specification function, about which the source's promises are then proved as lemmas, or states the promise outright in its own contract. `RpcClient.Run`, `Dispatch`, `RunCallIter` and `StreamItems` follow `RunLoop`, `Dispatched`, `CallIterRun` and `IterLoop`. `DeferredCount` states the throttle law itself, and `SudoFlag.Call` states what the wrapped function receives and returns.

Collaborators the model cannot see are parameters:
- pickling;
- the cipher's random bytes;
- the aligners (parasail, ssw, swalign);
- `os.path.abspath`;
- the interpreter path;
- the arrival schedule of queue events.

Places where the source's own description and its code differ follow the code:
- **The rekey budget can be overshot.** `EncryptedIO.write` tests the count against the budget *before* adding the payload's length (external/rpcss.py:187, 205). So the last payload under a key may take the count past its budget. The model rekeys exactly when the code does.
- **The rekey ceiling is 22.** `AES_MAX_BYTES = 2^20` (external/rpcss.py:106) is bitwise exclusive-or, not the mebibyte its comment names. `EncryptedIO` takes the ceiling as a parameter: the lemmas hold for 22 as written and for the intended mebibyte alike, and the Findings below contrast the two.
- **The key frame uses the outgoing cipher.** The frame carrying a new key and IV is encrypted under the cipher that is current at that moment (external/rpcss.py:192-193). That is RSA on the first write and the previous AES key afterwards. It is not always RSA.

## Model

| member | source | states |
|---|---|---|
| Bytes.Decimal | external/rpcss.py:21 | The length numeral `'{}'.format(n)` is non-empty, all digits, and without a leading zero unless it is `0`. |
| Bytes.ParseDecimal | external/rpcss.py:40 | `int()` reads back exactly the `n` that `'{}'.format(n)` wrote. |
| Bytes.Readline | external/rpcss.py:37 | `readline` returns a prefix that ends at the first newline, or the whole rest when there is none, and leaves the remainder. |
| Bytes.ReadlineOfLine | external/rpcss.py:37 | A line ending in its only newline, followed by anything, is read as exactly that line. |
| Bytes.ReadN | external/rpcss.py:41 | `read(n)` returns exactly `n` bytes when the stream holds at least `n`; for a negative `n` or a shorter stream it returns all of it; the bytes read plus the rest are the stream. |
| Framing.Read | external/rpcss.py:31-42 | `read` reports EOS exactly when the stream is empty (the length line is empty); every other outcome consumes part of the stream and leaves a strictly shorter suffix. |
| Framing.RoundTrip | external/rpcss.py:15-42 | `read` on the bytes `write(x)` produced, followed by anything, returns `x` and leaves exactly what follows. |
| Framing.ReadFirstOfAll | external/rpcss.py:15-42 | On a stream of several written frames, `read` returns the first frame and leaves the others. |
| Framing.ReadStreamOfAll | external/rpcss.py:66-78 | The reader thread's queue over written frames starts with the first frame and continues with the queue of the frames after it. |
| Framing.StreamRoundTrip | external/rpcss.py:66-78 | The reader thread's queue over written frames is exactly `xs`, in order, and ends with EOS. |
| Framing.StreamRoundTripStep | external/rpcss.py:66-78 | A reader that gives back the frames after the first, then EOS, gives back all the frames when the first frame is put in front. |
| Framing.EmptyLineIsEos | external/rpcss.py:37-39 | `readline` returns an empty line exactly when `read` reports EOS. |
| EncryptedChannel.Budget | external/rpcss.py:175-203 | The budget drawn from 8 random bytes lies below the ceiling. |
| EncryptedChannel.AsWrittenCeilingIs22 | external/rpcss.py:106 | `2^20` evaluates to 22, so every budget under that constant is at most 21. |
| EncryptedChannel.IntendedCeilingReachable | external/rpcss.py:175-203 | With a one-mebibyte ceiling, every budget `b` below it is what its own 8-byte little-endian encoding yields. The ceiling is `AES_MAX_BYTES` of external/rpcss.py line 106. |
| EncryptedChannel.InitialIsValid | external/rpcss.py:129-134 | For any positive ceiling, the state after `__init__` satisfies the direction invariant. A rekey is pending because the count starts at twice the ceiling and the refresh at 0. The ceiling is `AES_MAX_BYTES`: 22 as line 106 computes it, or the intended mebibyte; any positive value is allowed. |
| EncryptedChannel.WriteStep | external/rpcss.py:183-207 | A write rekeys if and only if the refresh is below the count. A rekeying write emits three frames (key, budget, payload), its new count is `len(x)` and its new refresh the budget sent. Any other write emits one frame and adds `len(x)` to the count. The last frame is the sealed payload, and the invariant is preserved. The budget is drawn under the ceiling passed in: 22 as written, or the intended mebibyte. |
| EncryptedChannel.ReadPayload | external/rpcss.py:179-181 | With no rekey due, decrypting the frame gives the payload and adds its length to the count. |
| EncryptedChannel.ReadStep | external/rpcss.py:158-181 | A read consumes two extra frames and resets the count exactly when the refresh is below the count. It then reads one payload. The invariant is preserved, for whichever positive ceiling the channel uses. |
| EncryptedChannel.MirroredStep | external/rpcss.py:158-207 | A reader in the writer's state reads back exactly the payload, and both directions stay equal. This holds for every positive ceiling, 22 included. |
| EncryptedChannel.MirroredStream | external/rpcss.py:158-207 | Any sequence of writes is read back as the same sequence of payloads by a peer that started in the same state. This holds for every positive ceiling, 22 included. |
| EncryptedChannel.AsWrittenRekeysAgain | external/rpcss.py:106 | With the ceiling as written (22), a rekeying write of 22 bytes or more leaves a rekey pending, so the very next write draws a new key again. |
| EncryptedChannel.IntendedKeyCarriesBudget | external/rpcss.py:183-207 | With the intended mebibyte ceiling, a key frame can carry any budget `b` below it, and a payload of at most `b` bytes written under the new key leaves no rekey pending. |
| EncryptedChannel.EncryptedIO.constructor | external/rpcss.py:115-145 | The channel keeps the ceiling it is given, 22 as the source computes it or the intended mebibyte. Both counts start at twice that ceiling and both refreshes at 0; the RSA ciphers are the key pairs. |
| EncryptedChannel.EncryptedIO.Write | external/rpcss.py:183-207 | The fields are updated and the frames appended as WriteStep says, under the channel's own ceiling. |
| EncryptedChannel.EncryptedIO.ReadEncrypted | external/rpcss.py:158-181 | The result, fields and remaining frames are as ReadStep says, under the channel's own ceiling. |
| Tokens.IdString | external/rpcss.py:232-242 | An Id is a named (unknown) one exactly when its string is none of the eleven token names. |
| Tokens.IdStringInjective | external/rpcss.py:217-220 | Equal Id strings mean equal Ids, so comparing Ids is comparing strings. |
| Tokens.TokenEqIsIdentity | external/rpcss.py:217-230 | `x == t` for a token `t` holds exactly when `x` is that token; a non-token is never equal. |
| Tokens.TokensDistinct | external/rpcss.py:232-242 | The eleven protocol tokens are pairwise different. |
| Tokens.AsNumber | external/rpcss.py:461 | A number is its own value; only numbers and booleans have one, every other value is None (Python raises TypeError). The same coercion applies to the `Queue.get` timeout at line 541. |
| Caller.DropPass | external/rpcss.py:258-263 | `_read` discards only a prefix of `Tpass` values; what is left does not start with one. |
| Caller.DropPassDropsOnlyPasses | external/rpcss.py:258-263 | Everything discarded is `Tpass`, and what remains is a suffix of the queue. |
| Caller.ReadReply | external/rpcss.py:258-263 | A value `_read` returns is never `Tpass` and is taken from the queue; the queue never grows. |
| Caller.ReadReplyIsFirstNonPass | external/rpcss.py:258-263 | `_read` returns the first value that is not `Tpass` and leaves exactly what follows it. |
| Caller.CallReturnsReply | external/rpcss.py:307-315 | A reply that is neither `Tpass` nor `Texception` is returned as it is. |
| Caller.CallRaisesException | external/rpcss.py:311-313 | `Texception` followed by a value makes `call` raise that value. |
| Caller.IterReplies | external/rpcss.py:317-336 | `call_iter` yields no more items than values arrived. |
| Caller.IterYieldsOnlyItems | external/rpcss.py:325-336 | `call_iter` never yields `Tpass`, `Tend` or `Texception`. |
| Caller.IterReadsItem | external/rpcss.py:325-336 | An item read is yielded, and the stream continues after it. |
| Caller.IterOfEndedStream | external/rpcss.py:317-336 | Items followed by `Tend` are yielded as exactly those items. |
| Caller.IterOfFailedStream | external/rpcss.py:317-336 | Items followed by `Texception` and `e` are yielded as those items, and then `e` is raised. |
| Caller.StepReplies | external/rpcss.py:344-368 | `call_step` sends either no `Tnext` (no acknowledgement, or an exception at once) or exactly one more `Tnext` than it yields items. |
| Caller.StepOfEndedStream | external/rpcss.py:344-368 | An acknowledged stream of items ending in `Tend` yields those items and costs `|items| + 1` `Tnext`. |
| Caller.StepOfFailedStream | external/rpcss.py:344-368 | An acknowledged stream of items ending in an exception yields those items, raises, and costs `|items| + 1` `Tnext`. |
| Caller.RpcServer.Read | external/rpcss.py:258-263 | The method returns and consumes as ReadReply says. |
| Caller.RpcServer.Pass | external/rpcss.py:273-279 | Writes `Tpass` and nothing else. |
| Caller.RpcServer.SetInterval | external/rpcss.py:286-291 | Writes `Tinterval`, then the interval. |
| Caller.RpcServer.SetTimeout | external/rpcss.py:293-298 | Writes `Ttimeout`, then the timeout. |
| Caller.RpcServer.SetPause | external/rpcss.py:300-305 | Writes `Tpause`, then the value. |
| Caller.RpcServer.Stop | external/rpcss.py:423-425 | Writes `Tstop`. |
| Caller.RpcServer.Call | external/rpcss.py:307-315 | Writes `Tcall` and the request, then returns or raises as CallReply says. |
| Caller.RpcServer.CallIter | external/rpcss.py:317-336 | Writes `Tcall_iter` and the request, then yields and ends as IterReplies says. |
| Caller.RpcServer.CallStep | external/rpcss.py:344-368 | Writes `Tcall_step`, the request and the `Tnext`s; yields and ends as StepReplies says. |
| Caller.RpcServer.StepStream | external/rpcss.py:357-368 | The stepping loop sends one `Tnext` before each read, and its result is the StepReplies stream. |
| Dispatcher.PollQueue | external/rpcss.py:265-267 | A poll that returns a value or reports the queue empty consumes one event; with a None timeout it never reports empty, it blocks and fails only past the last event. |
| Dispatcher.ReadTimed | external/rpcss.py:258-263 | A timed `_read` never returns `Tpass`; with a None timeout it never reports empty; a value or an empty report consumes events. |
| Dispatcher.PollQueueTakesFront | external/rpcss.py:265-267 | A poll takes events off the front; a value it returns is the event it took. |
| Dispatcher.ReadTimedTakesFront | external/rpcss.py:258-263 | A timed read takes events off the front; a value it returns is one of them. |
| Dispatcher.ReadBlockingDelivers | external/rpcss.py:258-263 | A blocking `_read` delivers the first value other than `Tpass`, or waits past the end of the schedule. This is the read that lines 494 and 552 use. |
| Dispatcher.NextReplyClearsOnlyOnError | external/rpcss.py:564-575 | `_run_next` clears `StepGen` exactly when it sends an exception; exhaustion sends `Tend` and keeps the generator. |
| Dispatcher.DrainEndedGenerator | external/rpcss.py:564-575 | Stepping through a generator that stops sends each item and then `Tend`. |
| Dispatcher.DrainFailingGenerator | external/rpcss.py:564-584 | Stepping through a generator that raises sends each item, then the exception, and clears `StepGen`. |
| Dispatcher.HandleInput | external/rpcss.py:538-548 | `_call_iter_handleInput` consumes events, and when it returns normally it has consumed at least the poll that found the queue empty. |
| Dispatcher.HandleInputRejects | external/rpcss.py:545-546 | A value other than `Tpause` or `Tstop` arriving mid-stream raises. |
| Dispatcher.HandleInputSettingsArrive | external/rpcss.py:538-548 | `Pause` afterwards is either the old value or one that arrived. `Stop` is set only by a `Tstop` that arrived, and never cleared. |
| Dispatcher.HandleInputKeepsPause | external/rpcss.py:538-548 | While no false value arrives, a set `Pause` stays set. |
| Dispatcher.FloorDivComparison | external/rpcss.py:462 | For integer `Timeout` and `Interval`, Python 2's rounded-down quotient compared with the counter agrees with the exact quotient. |
| Dispatcher.RpcClient.constructor | external/rpcss.py:429-446 | `Interval` and `Timeout` are as given; `Pause` and `Stop` are false and `StepGen` is None. |
| Dispatcher.RpcClient.ReadWithPass | external/rpcss.py:265-267 | The method polls as PollQueue says. |
| Dispatcher.RpcClient.ReadValue | external/rpcss.py:258-263 | The method reads as ReadTimed says. |
| Dispatcher.RpcClient.Read | external/rpcss.py:258-263 | The method reads as a blocking `_read` does. |
| Dispatcher.RpcClient.WriteException | external/rpcss.py:581-584 | Writes `Texception`, then the exception. |
| Dispatcher.RpcClient.RunSetInterval | external/rpcss.py:481-483 | `Interval` becomes the next value read. |
| Dispatcher.RpcClient.RunSetTimeout | external/rpcss.py:485-487 | `Timeout` becomes the next value read. |
| Dispatcher.RpcClient.RunSetPause | external/rpcss.py:489-491 | `Pause` becomes the next value read, whatever it was before. |
| Dispatcher.RpcClient.RunStop | external/rpcss.py:577-579 | Sets `Stop`. |
| Dispatcher.RpcClient.RunCall | external/rpcss.py:493-504 | Writes the result or the exception `f` raised. The handler raises when the request is not a callable returning a picklable value. |
| Dispatcher.RpcClient.RunCallStep | external/rpcss.py:550-562 | A callable that raises sends the exception and leaves `StepGen`. Otherwise `StepGen` is its result and `Tnext` acknowledges the call. |
| Dispatcher.RpcClient.RunNext | external/rpcss.py:564-575 | Writes and updates `StepGen` as NextReply says. |
| Dispatcher.RpcClient.HandleInputs | external/rpcss.py:538-548 | `Pause`, `Stop` and the queue change as HandleInput says. |
| Dispatcher.RpcClient.StreamItems | external/rpcss.py:519-536 | The result, new fields and values written are those of IterLoop from the fields before the call. |
| Dispatcher.RpcClient.RunCallIter | external/rpcss.py:506-536 | The result, new fields and values written are those of CallIterRun from the fields before the call. |
| Dispatcher.RpcClient.Dispatch | external/rpcss.py:471-579 | The exception raised, new fields and values written are those of Dispatched from the fields before the call. |
| Dispatcher.RpcClient.Run | external/rpcss.py:450-475 | How the loop ends, the new fields, the values written and the log of polls are those of RunLoop from the fields before the call and no polls. |
| Dispatcher.IterLoop | external/rpcss.py:519-536 | The stream consumes inbound events but never adds any, and leaves `Interval`, `Timeout` and `StepGen` alone. It ends with the schedule exhausted only when every event was consumed. |
| Dispatcher.CallIterRun | external/rpcss.py:506-536 | The same holds for `_run_call_iter` as a whole. |
| Dispatcher.Dispatched | external/rpcss.py:471-579 | A handler never adds inbound events, and it fails for lack of events only when every event was consumed. |
| Dispatcher.RunLoop | external/rpcss.py:450-475 | `run` ends Stopped only with `Stop` set, and ends for lack of events only when every event was consumed. |
| Dispatcher.IterLoopOutcome | external/rpcss.py:519-536 | A generator run to StopIteration has all its items sent, then `Tend`. One that raises has all its items sent, then the exception. Stopping or aborting mid-stream sends a prefix of the items, with `Stop` set when stopped. The stream never ends as a raising call. |
| Dispatcher.StreamsItemFirst | external/rpcss.py:530-534 | An item sent in front of a stream of the rest of the generator makes a stream of the whole generator. |
| Dispatcher.IterLoopStopArrived | external/rpcss.py:519-548 | The stream leaves a suffix of the events. It ends StoppedMidStream only when `Stop` was already set or a `Tstop` was among the events it consumed. |
| Dispatcher.UninterruptedStream | external/rpcss.py:519-536 | With only empty waits arriving, at least one more than there are items, and no pause or `Stop`, the stream sends every item and then `Tend` or the exception, ending Finished or GeneratorFailed. It uses one wait per item and one for the end. |
| Dispatcher.PausedStreamSendsNothing | external/rpcss.py:524-528 | With `Pause` set and no false value arriving, nothing is sent, and the stream ends only by `Stop` or an exception. |
| Dispatcher.CallIterReplies | external/rpcss.py:506-536 | A failed read, or a value that is not a request, raises with nothing written. A callable raising is exactly the CallRaised end, which sends its exception. Otherwise the stream of what it returned is as IterLoopOutcome says. |
| Dispatcher.DispatchedChangesOnly | external/rpcss.py:471-579 | `Interval` and `Timeout` change only by their own tokens. `Pause` and `Stop` change only by their own tokens or a stream. `StepGen` changes only by `Tcall_step` and `Tnext`, and only the four calling tokens write. `Tpass` does nothing. A value outside the nine tokens `_Runs` holds raises KeyError and changes nothing. |
| Dispatcher.RunLoopTimedOut | external/rpcss.py:456-468 | `run` ends TimedOut only on an empty poll with no `StepGen`, once `Timeout / Interval` is below the number of empty polls since the last value arrived. The log of polls extends the one it started with. |
| Dispatcher.IdleRunTimesOut | external/rpcss.py:456-468 | A server that receives nothing, with no `StepGen` and a positive numeric `Interval`, ends TimedOut. It takes at most `m + 1` more polls once `m` more empty polls would pass `Timeout / Interval`. |
| Dispatcher.PassResetsIdle | external/rpcss.py:469-479 | A `Tpass` does nothing but is a value received, so it resets the idle counter to 0. |
| Dispatcher.StreamInputStep | external/rpcss.py:519-536 | One round of the stream's loop, after the input check, either ends the stream as IterLoop says or continues it, with the item sent moved to what is done. |
| Dispatcher.RunGotStep | external/rpcss.py:469-475 | A value whose handler returns continues `run` from the handler's fields, with its output written. |
| Protocol.CallRoundTrip | external/rpcss.py:307-315 | A request that returns a plain value is returned to the caller, and one that raises is raised there as that exception. The dispatcher side is lines 493-504. |
| Protocol.StepRoundTrip | external/rpcss.py:344-368 | The caller yields exactly the items of a stopping generator and sends `|items| + 1` `Tnext`. The dispatcher side is lines 550-575. |
| Protocol.StepFailureRoundTrip | external/rpcss.py:344-368 | The caller yields the items of a raising generator, then raises the exception the dispatcher sent. The dispatcher side is lines 550-584. |
| Protocol.ReadIterRequest | external/rpcss.py:506-517 | `_run_call_iter` reads the request that `call_iter` sent, calls it and streams its generator over the waits that follow. |
| Protocol.IterRoundTrip | external/rpcss.py:317-336 | The dispatcher runs a generator of plain items to its end with no pause or `Stop`, ending Finished. The caller then yields exactly those items. The dispatcher side is lines 506-536. |
| Protocol.IterFailureRoundTrip | external/rpcss.py:317-336 | The dispatcher runs a generator that raises after its plain items, ending GeneratorFailed. The caller yields those items and then raises the same exception. The dispatcher side is lines 506-536. |
| RunExternal.MatchHeader | external/run_external.py:18-28 | The pattern matches a line exactly when it is NUL, one or more digits and a newline, and it captures their value. |
| RunExternal.Receive | external/run_external.py:18-32 | `recieve` gives EndOfStream exactly when the stream is empty; a received entry or a corrupt pickle consumes at least one byte. |
| RunExternal.SendReceiveObject | external/run_external.py:11-32 | A pickled object is received back as that object (`isObj` true), and the bytes after it are left. |
| RunExternal.ReadlineOfHeader | external/run_external.py:14-24 | The header `send` writes is exactly one line for `readline`, and the bytes after it are left. |
| RunExternal.MatchHeaderOfHeader | external/run_external.py:14-28 | The pattern reads back the length a header was written with. |
| RunExternal.SendReceiveLine | external/run_external.py:11-32 | A text line not starting with NUL is received as that string, newline included, with `isObj` false. |
| RunExternal.ControlLinesReceived | external/run_external.py:191-244 | `pause\n`, `unpause\n` and `quit\n` reach the child as those strings. |
| RunExternal.ReaderRun | external/run_external.py:51-62 | The reader never queues more entries than the stream has bytes and leaves a suffix no longer than the stream; unless unpickling raised, it reads the stream to its end. |
| RunExternal.ReaderRunStep | external/run_external.py:51-62 | A received entry the callback leaves is queued before everything the rest of the stream gives. |
| RunExternal.ReaderRunEnds | external/run_external.py:51-62 | The reader stops at the end of the stream, cleanly, or at a frame that does not unpickle, as a crash; it queues nothing more either way. |
| RunExternal.ReaderKeepsUnclaimed | external/run_external.py:61-62 | Nothing the callback claims is queued. |
| RunExternal.ReaderOfSentObjects | external/run_external.py:11-62 | On a stream of sent objects, the reader queues exactly the unclaimed ones in order and ends cleanly. |
| RunExternal.SilentReaderKeepsAll | external/run_external.py:82 | With the callback `runExternal` installs, every frame is queued. |
| RunExternal.StreamReader.constructor | external/run_external.py:36-42 | The queue is empty, `Stop` is false, and the stream and callback are as given. |
| RunExternal.StreamReader.Run | external/run_external.py:51-62 | The queue and the crash flag are as ReaderRun says; `Stop` already set ends it before the first read. |
| RunExternal.StreamReader.ReceiveOne | external/run_external.py:56-62 | One `recieve`: the stream advances past what was read, and the entry is queued exactly when the callback does not claim it. At the end of the stream nothing changes. |
| RunExternal.DrainOut | external/run_external.py:99-121 | Every entry popped from stdout is either yielded (an object) or printed (a string), none lost or duplicated. |
| RunExternal.Played | external/run_external.py:88-90 | The rounds played are a prefix of the schedule; stopping short of its end means the last round played found the child dead. |
| RunExternal.DrainOutYieldsObjects | external/run_external.py:99-105 | The values yielded from one stdout drain are exactly its objects. |
| RunExternal.CompletedRunYieldsStdoutObjects | external/run_external.py:88-121 | Apart from its Nones, a completed run yields exactly the objects that reached the stdout queue, in FIFO order. |
| RunExternal.RaisedComesFromStderr | external/run_external.py:92-113 | The error `runExternal` raises is the first object of some round's stderr queue. |
| RunExternal.DrainErrRaisesObject | external/run_external.py:92-96 | A stderr drain raises only an object it found, after printing the strings before it. |
| RunExternal.Command | external/run_external.py:151-157 | The command is `sudo` (when asked for), the interpreter, the file, then the import paths. |
| RunExternal.Interface.constructor | external/run_external.py:128-144 | A missing handler becomes the default printer; there is no child and no readers yet. |
| RunExternal.Interface.Start | external/run_external.py:147-172 | A live child makes it refuse with nothing changed. Otherwise it calls `BeforeSudo` once when sudo is on, launches the command, attaches readers with the current callbacks and sends the job. |
| RunExternal.Interface.Pause | external/run_external.py:191-194 | A live child is sent `pause\n`; otherwise nothing happens. |
| RunExternal.Interface.Unpause | external/run_external.py:196-199 | A live child is sent `unpause\n`; otherwise nothing happens. |
| RunExternal.Interface.Quit | external/run_external.py:201-204 | A live child is sent `quit\n`; otherwise nothing happens. |
| RunExternal.Interface.Control | external/run_external.py:191-204 | The shared step: write the line to a live child's stdin, or do nothing. |
| RunExternal.PopErr | external/run_external.py:92-96 | Matches DrainErr: prints strings until the first object, which is raised. |
| RunExternal.PopOut | external/run_external.py:99-105 | Matches DrainOut. |
| RunExternal.RunRound | external/run_external.py:88-108 | One round: stderr is drained, then stdout. A live round that yielded no object yields None. |
| RunExternal.RunExternal | external/run_external.py:72-124 | Silences both callbacks, starts the child and yields None. Its log is `Rounds` of the schedule. The callbacks are restored exactly when the run completes. |
| RunExternal.ChildRun | external/run_external.py:231-256 | The child's loop: a quit ends it; while paused nothing is sent; otherwise one item is sent, or the loop ends at StopIteration or the generator's error. |
| RunExternal.ChildSendsInOrder | external/run_external.py:253-256 | The child sends the generator's items in order, from where it stands. |
| RunExternal.PausedChildSendsNothing | external/run_external.py:238-251 | A paused child that is never sent `unpause\n` sends nothing. |
| RunExternal.QuitIgnoresRest | external/run_external.py:242-244 | Whatever follows `quit\n` in the drained batch has no effect. |
| RunExternal.ScanOfPlain | external/run_external.py:236-244 | A batch without control lines leaves the pause flag as it is. |
| RunExternal.UnpausedChildRunsToEnd | external/run_external.py:235-256 | Given enough iterations, an unpaused child with no control lines sends every remaining item and ends as its generator does. |
| RunExternal.DrainControl | external/run_external.py:236-244 | The flags are as the batch scan computes them, stopping at `quit\n`. |
| RunExternal.ChildLoop | external/run_external.py:231-256 | The log is ChildRun of the arrivals, and stdout is the sent items as `send` writes them. |
| Loaders.GetSize | external/__init__.py:221-226 | The result is a multiple of the tick, at least the size and less than the size plus one tick. |
| Loaders.GetSizeIsLeast | external/__init__.py:221-226 | No multiple of the tick that is at least the size is below `getSize`. |
| Loaders.WalkCoversTree | external/__init__.py:230-234 | Walking a directory adds `getSize` of every file of its tree exactly once. |
| Loaders.WalkAllCoversForest | external/__init__.py:230-234 | The same holds for each sub-directory in turn. |
| Loaders.AddFiles | external/__init__.py:233-234 | Adds the rounded sizes of one directory's files to the running size. |
| Loaders.CalculateSize | external/__init__.py:228-237 | The total is the sum of `getSize` over all files under the paths, and is a whole number of ticks. |
| Loaders.TreeSizeIsMultiple | external/__init__.py:221-237 | A tree's total is a whole number of ticks. |
| Loaders.ForestSizeIsMultiple | external/__init__.py:221-237 | A forest's total is a whole number of ticks. |
| Loaders.TreeSizeCoversRaw | external/__init__.py:221-237 | Rounding never loses bytes: a tree's total is at least its raw size. |
| Loaders.ForestCoversRaw | external/__init__.py:221-237 | The same holds for a forest. |
| Loaders.CopyTotal | external/__init__.py:148-151 | The total is the last size yielded, with 0 taken as 1; nothing yielded gives none. |
| Loaders.DeferredCount | external/__init__.py:240-251 | The indices are strictly increasing and below the generator's length. Empty input yields nothing. The last index is always yielded. Indices before the last are at least `interval` apart in time. Every index not yielded came less than `interval` after the yield before it. |
| Loaders.SpacedIndices | external/__init__.py:241-251 | The loop yields strictly increasing indices below the input length, each at least `interval` after the previous yield. Every index it skips came less than `interval` after the previous yield. It ends with `i` the last index and `last` the last index yielded. |
| Loaders.YieldKeepsSkips | external/__init__.py:246-249 | Yielding index `x` changes neither what any index up to `x` is compared with nor the skips already recorded. |
| Loaders.SkipKeepsSkips | external/__init__.py:246-249 | An index skipped because its gap is below `interval` is recorded as a skip. |
| Loaders.ScanStep | external/__init__.py:244-251 | One iteration keeps the loop's invariant, both when it yields index `k` and when it skips it. |
| Loaders.Generate | external/__init__.py:86-102 | The generator yields at most one value per step of the run. |
| Loaders.NoneRunYieldsHalf | external/__init__.py:89-97 | A run of `k` Nones yields the current value `k / 2` times. |
| Loaders.NonePairs | external/__init__.py:89-97 | `m` pairs of Nones yield the current value `m` times and leave the next None to be skipped. |
| Loaders.GenerateValue | external/__init__.py:99-102 | A value from the run is yielded and becomes the current value. |
| Loaders.GenerateWithoutNones | external/__init__.py:86-102 | Without Nones, exactly the run's values are yielded, in order. |
| Loaders.GenerateYieldsKnownValues | external/__init__.py:86-102 | Everything yielded is the initial value or a value of the run. |
| Loaders.GenerateLoop | external/__init__.py:86-102 | The loop yields what Generate gives from the initial value. |
| Loaders.SudoFlag.constructor | external/__init__.py:29 | `Sudo` starts false. |
| Loaders.SudoFlag.Call | external/__init__.py:31-42 | `f` runs with `Sudo` true, and its value or exception is returned exactly. `Sudo` is false afterwards in both cases. |
| Client.IndexFrom | external/client.py:13-15 | `args.index(x, start)` is the first position at or after `start` holding `x`; when there is none, ValueError. |
| Client.PathsFollowFlags | external/client.py:10-28 | Every path taken is the argument right after a `-p` at or after position 1. |
| Client.TrailingFlagAddsNothing | external/client.py:17-19 | A `-p` as the last argument ends the scan with nothing added. |
| Client.NoFlagNoPaths | external/client.py:12-15 | Arguments without `-p` add nothing. |
| Client.InsertAll | external/client.py:23-26 | `sys.path` grows by at most one entry per path. |
| Client.InsertAllKeepsOld | external/client.py:25-26 | The old entries stay, in order, behind the inserted paths. |
| Client.InsertAllKeepsDistinct | external/client.py:25-26 | Starting from a `sys.path` without duplicates, the result has none: no path is added twice, and nothing already present is added again. |
| Client.InsertAllAddsEvery | external/client.py:23-26 | Every path named, made absolute, ends up in `sys.path`. |
| Client.LastNewPathFirst | external/client.py:26 | The last path named, when new, ends up first. |
| Client.SysPath.InsertFront | external/client.py:26 | `sys.path.insert(0, path)` puts the path in front of the old entries. |
| Client.SysPath.ScanArgs | external/client.py:10-28 | The new `sys.path` is InsertAll of the paths that follow `-p` flags, searching from position 1. |
| Ssw.DefaultGetter.Get | smith_waterman/ssw.py:47-56 | A known key gives its value; any other key gives the default. |
| Ssw.LastIndex | smith_waterman/ssw.py:67 | The position a repeated character keeps in the dict comprehension is its last. |
| Ssw.CodesAsWritten | smith_waterman/ssw.py:67 | The characters with a code are exactly those of the charset. |
| Ssw.BaseToIntOfDistinct | smith_waterman/ssw.py:55-68 | For a charset of distinct characters, `charset[i]` is `i + 1` and any other character is 0. |
| Ssw.IntToBaseOfDistinct | smith_waterman/ssw.py:55-69 | For distinct characters, code `i` in 1..n is `charset[i - 1]` and any other integer is `'?'`. |
| Ssw.IntToBaseInvertsBaseToInt | smith_waterman/ssw.py:67-69 | `int_to_base` undoes `base_to_int` on every charset character. |
| Ssw.BaseToIntInvertsIntToBase | smith_waterman/ssw.py:67-69 | `base_to_int` undoes `int_to_base` on every known code. |
| Ssw.RepeatedCharsetCodeOutsideMatrix | smith_waterman/ssw.py:67-84 | For charset `"aab"` the alphabet has 2 characters, so the matrix has rows 0..2, yet `'b'` is coded 3. |
| Ssw.Dedup | smith_waterman/ssw.py:64-67 | The charset without repeats has distinct characters and the same set of characters. |
| Ssw.CodesFitAlphabet | smith_waterman/ssw.py:67-84 | With repeats removed, every code is at most `n`, and a character has a code of at least 1 exactly when it is in the charset. |
| Ssw.DedupOfDistinct | smith_waterman/ssw.py:67 | For a charset without repeats, the corrected maps are the ones the source builds. |
| Ssw.Int8 | smith_waterman/ssw.py:82-90 | A `c_int8` stores a value in -128..127, wrapping around; a value already in range is kept. |
| Ssw.TextAligner.constructor | smith_waterman/ssw.py:60-69 | The charset is set, and so are the corrected maps BaseToInt and IntToBase over its distinct characters. They equal the `enumerate(charset)` maps of line 67 when the charset has no repeats (Ssw.DedupOfDistinct). |
| Ssw.SetRow | smith_waterman/ssw.py:85-88 | One loop pass sets the diagonal entry in row `i`, then column 0 of row `i`, then row 0 at column `i`. |
| Ssw.TextAligner.SetMat | smith_waterman/ssw.py:76-90 | The matrix has `(n+1)^2` entries for the `n` distinct charset characters. Row 0 and column 0 are 0, including `m[0]`. The rest of the diagonal is `match`, every other entry is `-mismatch`, and each is stored as a `c_int8`. |
| Ssw.TextAligner.SswInitSize | smith_waterman/ssw.py:94-96 | The size passed on is `n + 1` for the charset's `n`, whatever `n` the caller gave. |
| SortKeys.MatrixFor | smith_waterman/smith_waterman.py:14-44 | There is a matrix exactly when the alphabet is non-empty, and it belongs to that alphabet. |
| SortKeys.GrowsIffNew | smith_waterman/smith_waterman.py:37-41 | Adding characters changes the alphabet's size exactly when one of them is new, and otherwise leaves the alphabet equal. |
| SortKeys.SwSortKey.constructor | smith_waterman/smith_waterman.py:8-16 | The alphabet is empty, and the matrix and the reference are None. |
| SortKeys.SwSortKey.UpdateAlphabet | smith_waterman/smith_waterman.py:36-44 | The alphabet gains the characters of `x`. The matrix is rebuilt exactly when the alphabet grew, and the matrix always belongs to the current alphabet. |
| SortKeys.SwSortKey.SetReferenceString | smith_waterman/smith_waterman.py:18-20 | The reference's characters join the alphabet, and the reference is stored. |
| SortKeys.SwSortKey.Call | smith_waterman/smith_waterman.py:22-34 | The query's characters join the alphabet before scoring. The result is the aligner's score under the resulting matrix. |
| SortKeys.BaseScore | smith_waterman/smith_waterman.py:25-33 | A score exists exactly when there is a reference, a non-empty alphabet and a non-empty query. |
| SortKeys.SplitChars | smith_waterman/smith_waterman.py:63-66 | Splitting adds no character the reference lacks. On whitespace it adds exactly the reference's non-whitespace characters. |
| SortKeys.SplitSpaceOfWord | smith_waterman/smith_waterman.py:63 | A reference without whitespace is one part. |
| SortKeys.Apply | smith_waterman/smith_waterman.py:112-116 | `relative_path_lower` has the path's length and no capitals. |
| SortKeys.SplitScore | smith_waterman/smith_waterman.py:71-85 | No parts list fails. No parts gives 0. With parts, there is a result exactly when the query is non-empty. |
| SortKeys.SplitScoreOfOnePart | smith_waterman/smith_waterman.py:71-85 | With one part the split key scores exactly like the plain key. |
| SortKeys.SplitScoreOfWord | smith_waterman/smith_waterman.py:62-85 | A one-word reference split on whitespace scores like the plain key against that word. |
| SortKeys.SwSplitApplySortKey.constructor | smith_waterman/smith_waterman.py:48-60 | A fresh plain key with an empty alphabet, and no reference parts. |
| SortKeys.SwSplitApplySortKey.SetReferenceString | smith_waterman/smith_waterman.py:62-69 | Every part's characters join the alphabet, and both the reference and its parts are stored. An empty separator raises with nothing changed. |
| SortKeys.SwSplitApplySortKey.Call | smith_waterman/smith_waterman.py:71-85 | The result is SplitScore of `applyF(x)`. The plain key's reference is the same as before, also when scoring fails. The alphabet gains the query's characters exactly when there is a part to score. |
| SortKeys.SwNav.Quick | smith_waterman/smith_waterman.py:103-116 | The key gets the lowered reference and `relative_path_lower` when case is ignored, and the reference as typed and `relative_path` otherwise. On success the plain key's alphabet gains every part's characters. When the split raises, `applyF`, the parts, the plain key's reference, its alphabet and its matrix are all unchanged. |
| Text.LowerChar | smith_waterman/smith_waterman.py:111 | Lowering gives no capital, maps capitals to lower case and leaves other characters. |
| Text.UpperChar | smith_waterman/__init__.py:22-23 | Upper-casing gives no lower-case letter, maps lower case to capitals and leaves other characters. |
| Text.Lower | smith_waterman/smith_waterman.py:111 | `lower()` keeps the length and lowers each character. |
| Text.Upper | smith_waterman/__init__.py:22-23 | `upper()` keeps the length and upper-cases each character. |
| Text.LowerIdempotent | smith_waterman/smith_waterman.py:107-111 | Lowering twice is lowering once, and text without capitals is unchanged. |
| Text.LowerOfLower | smith_waterman/smith_waterman.py:107-111 | A reference that `islower()` accepts is its own `lower()`. |
| Text.TakeWord | smith_waterman/smith_waterman.py:63 | The first word is free of whitespace, and it and the rest make up the text. |
| Text.DropSpace | smith_waterman/smith_waterman.py:63 | Leading whitespace is dropped, and what is left is a suffix. |
| Text.SplitSpacePieces | smith_waterman/smith_waterman.py:63 | `split()` pieces are non-empty and free of whitespace, and together they are the text without its whitespace. smith_waterman/__init__.py line 94 splits the same way. |
| Text.SplitOn | smith_waterman/smith_waterman.py:63 | `split(sep)` gives at least one piece. smith_waterman/__init__.py line 94 splits the same way. |
| Text.JoinSplitOn | smith_waterman/smith_waterman.py:63 | Joining the pieces with the separator gives the text back. smith_waterman/__init__.py line 94 splits the same way. |
| Text.Split | smith_waterman/smith_waterman.py:63 | Only an empty separator raises ValueError. smith_waterman/__init__.py line 94 splits the same way. |
| Text.EffectiveReference | smith_waterman/smith_waterman.py:106-115 | When case is ignored the reference has no capitals; otherwise it is as typed. smith_waterman/__init__.py lines 144-151 do the same. |
| Text.SmartCase | smith_waterman/smith_waterman.py:106-107 | With `s` and without `i`, case is ignored exactly when the reference has a lower-case letter and no capital. |
| Text.NoCaseFlags | smith_waterman/smith_waterman.py:106-107 | Without `i` or `s` the reference is used as typed. smith_waterman/__init__.py line 144 does the same. |
| Text.OpenLine | smith_waterman/smith_waterman.py:150 | The line handed on is a prefix of the console line. smith_waterman/__init__.py lines 178-181 do the same. |
| Text.ConsoleLine | smith_waterman/smith_waterman.py:147-152 | A console opens exactly with the flag `k`. It holds a prefix of the line, and the whole line for an empty reference. smith_waterman/__init__.py lines 177-182 do the same. |
| Text.OpenLineTrimsReference | smith_waterman/smith_waterman.py:150 | A line that ends with the reference has the reference trimmed off. smith_waterman/__init__.py line 181 does the same. |
| SwKeys.CaseSensitiveKeepsCase | smith_waterman/__init__.py:15-23 | `CaseSensitiveStr.upper` differs from `str.upper` exactly on text with a lower-case letter. |
| SwKeys.KeyScore | smith_waterman/__init__.py:58-77 | An empty item fails; otherwise the result is the aligner's score. |
| SwKeys.Key.constructor | smith_waterman/__init__.py:29-70 | The reference starts as `''`. |
| SwKeys.Key.SetRef | smith_waterman/__init__.py:54-73 | The reference becomes `x`. |
| SwKeys.Key.Call | smith_waterman/__init__.py:58-77 | The result is KeyScore against the current reference. |
| SwKeys.SplitSum | smith_waterman/__init__.py:96-104 | No references give 0. With references, there is a result exactly when the item is non-empty. |
| SwKeys.SplitSumOfOnePart | smith_waterman/__init__.py:96-104 | With one reference the split key scores like the wrapped key. |
| SwKeys.LastRef | smith_waterman/__init__.py:100-102 | With no references the wrapped key keeps its reference; with references and a non-empty item it ends at the last one. |
| SwKeys.SplitTransformKey.constructor | smith_waterman/__init__.py:86-91 | The references start empty. |
| SwKeys.SplitTransformKey.SetRef | smith_waterman/__init__.py:93-94 | The references become the parts of `x`; an empty separator raises and keeps the old ones. |
| SwKeys.SplitTransformKey.Call | smith_waterman/__init__.py:96-104 | Applies `TransF` once. The result is SplitSum, and the wrapped key ends at LastRef. |
| SwKeys.SwNav.Quick | smith_waterman/__init__.py:135-152 | The settings are saved and switched to the Smith-Waterman sort only when none are saved yet. The global key gets the reference and path as the case rule says. |
| SwKeys.SwNav.Cancel | smith_waterman/__init__.py:184-189 | Restores the saved settings and clears them; does nothing when none are saved. |

## Left out

- Threads and blocking:
  - `Reader`, `StreamReader`, `RpcClient` as threads and their `__del__` joins are not modelled.
  - The busy-wait for `InReader` and `Queue.get` timing are left out as well.
  - Queues are sequences; a poll that times out is a `Tick` event.
  - A schedule that ends is `Horizon`: the model stops there instead of waiting.
- Cryptography: RSA key generation, PKCS1_OAEP, AES-CFB and `Crypto.Random` are symbolic. A frame opens only under the cipher state that sealed it, and the random bytes are parameters.
- Pickle and savestate: treated as an injective encoding. At the RPC level values pass unchanged; in run_external pickling is a parameter with an assumed inverse.
- Process plumbing is left out: `subprocess.Popen`, `poll()`, stdio redirection, the `__main__` demos, `time.sleep`, and the host's printing to the terminal (printed text is logged instead). Child liveness is an input (`Interface.Observe`, `Batch.alive`).
- The remote closures `addToPath`, `removeFromPath`, `chdir`, and `Mask`/`MaskedEnvironment` are left out because they act on the remote host's modules and working directory.
- The start of the run_external child's `__main__` is left out. That covers its busy-wait for the job (external/run_external.py:225-226), and the `popleft` and the call `f(*args, **kwargs)` (lines 228-229). So is its branch for a result that is not a generator, which sends that one result with `send(r, sys.stdout)` (lines 257-258). RunExternal.ChildLoop starts from the generator the call returned.
- The run_external child's `sys.argv` loop that appends paths (external/run_external.py:213-217) is left out. It is the client scanner's logic with `append`, and the client's version is modelled.
- `ExternalLoader.pause`/`unpause`/`destroy` and `CopyLoader`'s copying and progress bar are left out: they are ranger plumbing and float arithmetic.
- Loaders.CalculateSize: takes the file tree with sizes as input instead of calling `os.stat` and `os.walk` on disk.
- Loaders.GetSize: requires a positive tick, as `shutil_g.BLOCK_SIZE` is. A zero tick, which raises ZeroDivisionError in Python, is not modelled.
- Loaders.DeferredCount: timestamps are integers given as input, not floats read from `time.time()`.
- Client.SysPath.ScanArgs: `os.path.abspath` is a parameter.
- `int()` leniency beyond ASCII whitespace, a sign and decimal digits (underscores, Unicode digits) is not modelled.
- Floating-point numbers are exact reals. A `Timeout / Interval` of `0.3 / 0.1` is 3 in the model but 2.9999999999999996 in IEEE doubles, so the idle poll at which `run` times out can differ by one near such boundaries. Integer settings have no such difference (Dispatcher.FloorDivComparison).
- The child's last-chance `send(e, sys.stderr)` of an error that ends its loop (external/run_external.py:263) is left out. It is I/O on the child's stderr, and the host's side of such an object is modelled by the stderr drain.
- `raise self._read()` in `call`, `call_iter` and `call_step` (external/rpcss.py:313, 334, 355, 366) raises the value read. In Python 2 a value that is not an exception raises TypeError instead; the model raises the value itself. The dispatcher only ever sends exceptions there, so the round trips are unaffected.
- `RpcClient.Exception` bookkeeping and the traceback text are left out: an exception is the message it carries.
- Caller.RpcServer.CallIter and Caller.RpcServer.CallStep: their generators run to the end; a consumer abandoning them early is not modelled.
- Foreign aligners: parasail, ssw_wrap through ctypes, swalign and the `LoadLibrary` patching are parameters giving an integer score.
- The float post-processing of scores is left out, so a key returns the aligner's integer score. This covers `+ 1 / len(string)` and `+ float(...) / len(item)`. The division by the query's length is kept as its one observable effect: an empty query fails.
- The `ssw.Aligner` superclass is not part of this model. That includes whatever its `__init__` and `set_mat` do on their own, and `align` and `set_ref`.
- SortKeys.SwSortKey.Call: a missing matrix or reference fails as a whole. The exact exception parasail raises is not modelled.
- SortKeys.SwSplitApplySortKey.constructor: `applyF` is one of the two path selectors `quick` installs. The default `lambda item: item` is not modelled, because its result is not a string.
- Ranger's side of `sw_nav` is left out because it is ranger's UI: `thisdir.sort`, `refilter`, `move`, `fm.move`, `open_console` itself, `tab`, `execute`, `_finish` and `parse_flags`.
- Text handling covers ASCII only: `lower`, `upper`, `islower` and `split()` whitespace. Unicode case mapping is not modelled. The separators `\x1c`-`\x1f`, which `split()` also splits on for Unicode text, are not either.
- smith_waterman/sw.py, commands.py and shared/__init__.py are not part of this model. They are import plumbing and ranger command dispatch.
- Ssw.BaseToIntAsWritten: the maps the source builds for a charset with repeated characters are kept only to show the finding below. The rest of the model uses the corrected maps, Ssw.BaseToInt and Ssw.IntToBase.

## Findings

| source | as written | input that shows it | evidently intended | confidence | as-written member | corrected member |
|---|---|---|---|---|---|---|
| external/rpcss.py:106 | `AES_MAX_BYTES = 2^20 # 1MB` is bitwise XOR, which is 22, so a new key is drawn after at most 21 payload bytes. | any 8 budget bytes `t`: `Budget(t, 22) <= 21`; a rekeying write of 22 bytes leaves the next write rekeying again | `2**20`, one mebibyte between rekeys | not executed | EncryptedChannel.AsWrittenRekeysAgain | EncryptedChannel.IntendedKeyCarriesBudget |
| smith_waterman/ssw.py:67-84 | A charset with a repeated character gets codes up to `len(charset)`, but the matrix is sized for `len(set(charset))`. | charset `"aab"`: `'b'` is coded 3, while the matrix has rows 0..2 | codes 1..n for the n distinct characters | not executed | Ssw.RepeatedCharsetCodeOutsideMatrix | Ssw.CodesFitAlphabet |
