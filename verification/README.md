# The TChannel transport, modelled and proved

TChannel multiplexes remote calls over one connection. This project models the part of the Python
implementation that does the work on the wire and behind it, and proves what that part promises:

* **Frames.** A call is streamed into messages, its arguments are cut under a byte budget into
  frames, each frame is signed with a running checksum, written, read back, verified, and put
  together again from the interleaved frames of many calls (`ReadWriter`, `Args`, `Messages`, `MessageIds`,
  `WireLayout`, `Checksums`, `Fragmentation`, `Reassembly`, `Refusals`, `EndToEnd`, `FailingCalls`, `Multiplexing`,
  `MessageFactory`, `Streaming`).
* **Peers.** A heap that tracks positions, kept in step with a dictionary of peers and with ranks
  taken from live connections, and the retry loops that search it (`Heaps`, `HostPorts`,
  `PeerHeap`, `PeerGroup`, `Retry`, `Replay`).
* **Waiting.** The asynchronous queue as a concurrent protocol, and the table of calls that wait
  for an answer (`AsyncQueue`, `QueueProgress`, `GetNowait`, `PendingCalls`, `CallOutcomes`).

The code is modelled in its own form. Objects that the code changes in place are classes, and each
of their methods is proved equal to a function on values or on the abstract state; the laws are
lemmas about those functions. CRC-32 (section 8 of RFC 1952) and CRC-32C (section 12.1 of RFC 3720)
are an arbitrary step from a sum and a byte to a sum, folded over the bytes. Random numbers, the
network and the outcome of a connect are parameters. Automatic induction is switched off in every
lemma, so each inductive proof is the one written down.

## What turned out not to hold as documented

Where a promise fails, the code is kept as it is, an input on which it fails is given, and the
exact condition under which it holds is proved.

* A cut whose kept argument, not being the last, leaves exactly two bytes over makes the frames
  join to one argument more (`Args.SplitJoins`, `Fragmentation.CutJoins`). A call with three
  arguments gets through exactly when that never happens and the first frame has room for an
  argument; otherwise the receiver raises (`EndToEnd.CallRoundTrip`). A call of the one kind that
  fails is in `FailingCalls.ResidueBreaksCall`, one of the other in `FailingCalls.NoRoomForArgument`.
* A call whose header leaves the payload no room at all cannot be sent (`EndToEnd.HeaderMustFit`,
  `FailingCalls.HeaderTooLong`).
* Signing lengthens a frame by four bytes when the checksum value was not there before the cut
  (`Fragmentation.SigningKeepsLength`). The first of several frames can then never be written
  (`EndToEnd.FirstFrameMustFit`, `FailingCalls.UnsignedIsTooLong`).
* `width` should be the least number of bytes written. With arguments in the schema it is not: a
  list that is short of arguments writes fewer length fields than `width` counts
  (`ReadWriter.NoArgsBelowWidth`, `Messages.ShortMessage`). It is a lower bound exactly when the
  contents make up for the missing length fields (`ReadWriter.WidthIsLowerBound`,
  `ReadWriter.WidthOfMessage`, `Messages.WidthOfPayload`).
* `length` should be the number of bytes written. It is short by what the constants that are written
  contain, so it is right exactly when they contain nothing (`ReadWriter.LengthAccount`,
  `ReadWriter.LengthIsBytesWritten`); a constant string does (`ReadWriter.ConstantStringLength`).
* Input cut short should be a ReadError. Without arguments it is (`ReadWriter.TruncatedInputFails`);
  a payload cut inside its arguments is accepted with fewer of them
  (`ReadWriter.TruncatedArgsAccepted`). The size in front of a frame makes up for it
  (`Messages.TruncatedFrameFails`).
* An error message leaves the running checksum of its id behind; a later call with that id is
  refused exactly when its sum on top of that differs (`Multiplexing.SumLeftBehind`, through the
  factory itself `FailingCalls.ReusedAfterError`), for a checksum like CRC-32 whenever what was left
  is not 0 (`Multiplexing.SumLeftBehindRefuses`). `FailingCalls.RefusedAfterError` is such a call.
* A message should go out under its own id. An id of 0 counts as none, and another is drawn for it,
  so the frames of a call keep its id exactly if that is not 0 (`EndToEnd.FramesKeepId`,
  `Streaming.StreamsKeepId`). A call without an id in one message arrives as a call of the id drawn
  (`EndToEnd.OneMessageMoves`); in several messages each goes out under an id of its own, and the
  receiver raises (`FailingCalls.ZeroIdBreaksCall`, `FailingCalls.ZeroIdExample`); a request is then
  never answered (`PendingCalls.ZeroIdUnanswered`). The id 0 is real: every MAX_MESSAGE_ID-th draw
  is 0 (`MessageIds.ZeroIsDrawn`), and a response has the id that the peer chose.
* `get_nowait` is documented to raise when no values are available. It raises exactly when a get
  that came before it is unresolved when it meets the lock, or the value next in line has not arrived
  when it looks (`GetNowait.RefusedIffGetPending`, `GetNowait.EmptyIffNotArrived`, both joined in
  `GetNowait.NowaitRaises`; undisturbed, `GetNowait.NowaitAloneReturns`). Either can happen with a
  value there to take (`GetNowait.RefusedWithValuesLeft`, `GetNowait.EmptyWithLaterValue`).
* `smallest` is documented to find the smallest match. It finds the match that comes first level
  by level (`PeerHeap.PeerHeap.Smallest`), which need not be the least (`Heaps.FirstMatchNotLeast`).
  It is sure to be a least match exactly when every match is the one found or its later sibling, or
  lies below one of the two (`Heaps.FirstMatchIsLeast`); so always when the root matches
  (`Heaps.MatchingRootIsLeast`).
* `PeerGroup.get` and `_get_isolated` with a host-port that does not print as itself file the new
  peer under another name, raise, and leave the group incoherent exactly when a heap peer had that
  name (`PeerGroup.PeerGroup.Get`). Asking for `h:1` and then for `h:01` does it
  (`PeerGroup.TwoSpellings`); a host-port prints as itself exactly when its port is a number as
  printed (`HostPorts.CanonicalExactly`).
* A peer that was removed still calls back when its connections change. That raises exactly when its
  rank changes and the index at which it left lies beyond the end of the heap, and otherwise does
  nothing (`PeerGroup.PeerGroup.UpdateHeap`). The index it is left with is the heap's new size, so
  at first it is in that state unless the heap is empty (`PeerGroup.PeerGroup.Remove`), and a
  connection that comes in then raises (`PeerGroup.RemovedThenConnected`,
  `PeerGroup.RaisesAfterRemoval`).
* `send_with_retry` falls out of its loop exactly when the limit is negative
  (`Retry.SendWithRetry`).
* Closing a connection assumes that no registered call has been settled. Over all runs that is so
  exactly when no registered call has a response under construction or has failed
  (`PendingCalls.CloseNeedsNothingLeft`). A response that is still streaming and a request that could
  not be written break it (`PendingCalls.StreamingResponseStaysRegistered`,
  `PendingCalls.FailedRequestStaysRegistered`).

## Model

| member | source | states |
|---|---|---|
| AsyncQueue.StepKeepsInv | tchannel/_queue.py:107-190 | one lock section or callback, from any state with the linked chain of holes and pointers intact, leaves it intact |
| AsyncQueue.FirstInFirstOut | tchannel/_queue.py:107-190 | after every schedule of any number of puts, gets and get_nowaits the values delivered, in lock order of the gets, are a prefix of the values that the schedule puts, in lock order of the puts |
| AsyncQueue.EachNodeConsumedOnce | tchannel/_queue.py:147-157 | no future is ever filled twice and no nulled next is followed, so each node has one consumer |
| AsyncQueue.CallsAreRecorded | tchannel/_queue.py:107-168 | after every schedule the queue holds exactly its calls in lock order: each value put, and each get with its kind, waiting or not |
| AsyncQueue.GetWaits | tchannel/_queue.py:159-190 | a get waits: whatever the schedule before and after it, it never ends in QueueEmpty |
| AsyncQueue.NowaitDoesNotWait | tchannel/_queue.py:135-157 | a get_nowait never waits for a node, whatever the schedule before and after it |
| QueueProgress.NoLostWakeup | tchannel/_queue.py:172-189 | when no callback can run, a get still waits only if every value put has been delivered |
| QueueProgress.StepUsesOne | tchannel/_queue.py:124-190 | every callback, and every step of a get_nowait past the lock, uses up one of the steps left to the calls made |
| QueueProgress.StepsAddUp | tchannel/_queue.py:124-190 | so without new calls a schedule takes at most as many steps as are left |
| QueueProgress.ComesToRest | tchannel/_queue.py:124-190 | and every schedule can be taken to where no callback can run and no get_nowait is half way |
| QueueProgress.DeliveredAtRest | tchannel/_queue.py:107-190 | there the values delivered are the first ones that the schedule puts, as many as there are puts, or gets that did not raise, whichever are fewer |
| AsyncQueue.SomeoneCanRun | tchannel/_queue.py:124-133 | while a value is left for the next get in line, that get or the put it needs has a callback to run |
| QueueProgress.NowaitCanRun | tchannel/_queue.py:148-157 | a get_nowait that is next in line can always go on |
| GetNowait.RefusedIffGetPending | tchannel/_queue.py:135-145 | under the lock get_nowait refuses exactly when a get that came before it is unresolved |
| GetNowait.EmptyIffNotArrived | tchannel/_queue.py:148-152 | past the lock it finds its hole empty, and will raise, exactly when the next value in lock order has not arrived |
| GetNowait.NowaitRaises | tchannel/_queue.py:135-157 | over every schedule get_nowait raises exactly for one of these two reasons |
| GetNowait.NowaitAloneReturns | tchannel/_queue.py:135-157 | undisturbed it returns the next value in line if no get is pending and that value has arrived, and else raises |
| GetNowait.RefusedWithValuesLeft | tchannel/_queue.py:135-145 | a schedule after which it refuses although more values have arrived than there are gets |
| GetNowait.EmptyWithLaterValue | tchannel/_queue.py:148-152 | a schedule after which it raises although a value has arrived and no get is pending |
| AsyncQueue.Queue.constructor | tchannel/_queue.py:93-105 | a new queue is in the initial state of the transition system |
| AsyncQueue.Queue.PutLock | tchannel/_queue.py:107-120 | the locked section of put is its step of the transition system |
| AsyncQueue.Queue.OnPut | tchannel/_queue.py:124-133 | the callback of put fills the hole its pointer names and nothing else |
| AsyncQueue.Queue.GetLock | tchannel/_queue.py:159-168 | the locked section of get is its step, after which its ticket waits for a node |
| AsyncQueue.Queue.NowaitLock | tchannel/_queue.py:141-146 | the locked section of get_nowait takes a ticket or refuses |
| AsyncQueue.Queue.OnGet | tchannel/_queue.py:182-188 | the first callback of get learns which hole to wait for |
| AsyncQueue.Queue.Take | tchannel/_queue.py:172-180 | consuming a node hands its next hole on and returns its value |
| AsyncQueue.Queue.NowaitCheck | tchannel/_queue.py:148-150 | get_nowait finds the hole filled or empty |
| AsyncQueue.Queue.NowaitRestore | tchannel/_queue.py:150-152 | the empty hole is handed on to the next ticket |
| ReadWriter.RoundTrip | tchannel/rw.py:345-700 | for every schema without args, reading what was written, with anything behind it, gives the value back and leaves the rest |
| ReadWriter.MessageRoundTrip | tchannel/rw.py:379-410 | fields followed by args round-trip when nothing follows, args being readable only at the end |
| ReadWriter.WriteInvertsRead | tchannel/rw.py:345-700 | for every schema without args and constants, what was read and written again is the input that was consumed |
| ReadWriter.TruncatedInputFails | tchannel/rw.py:267-283 | for every schema without args, every strict prefix of an encoding raises ReadError |
| ReadWriter.TruncatedFieldsFail | tchannel/rw.py:267-283 | a message cut short inside its fields raises ReadError |
| ReadWriter.TruncatedArgsAccepted | tchannel/rw.py:387-394 | a message cut short inside its arguments is accepted with the longest run of complete ones that is left |
| ReadWriter.ArgsAreLongestRun | tchannel/rw.py:387-394 | args at the end of the input are the longest run of complete ones, up to the maximum |
| ReadWriter.LengthAccount | tchannel/rw.py:253-258 | for every schema the bytes written are length and what the constants written take beyond their widths |
| ReadWriter.LengthIsBytesWritten | tchannel/rw.py:253-258 | length is the bytes written if and only if the constants written have no surplus; unless args stand inside a constant it never exceeds them, and equals them if and only if no constant that is written has any content |
| ReadWriter.ConstantStringLength | tchannel/rw.py:643-663 | a constant string for which it is not |
| ReadWriter.WidthIsLowerBound | tchannel/rw.py:260-265 | width is a lower bound for the bytes written if and only if the contents make up for the length fields of missing arguments; always for schemas without args |
| ReadWriter.WidthOfMessage | tchannel/rw.py:396-410 | for fields followed by args, exactly when the args and the contents of args and fields come to the length fields of all args; always when no argument is missing |
| ReadWriter.NoArgsBelowWidth | tchannel/rw.py:402-403 | an empty list of arguments writes nothing where width says six |
| ReadWriter.ReadFrom | tchannel/rw.py:345-700 | the readers that consume a stream in place compute the same value and leave the same rest as the parsing function |
| ReadWriter.WriteTo | tchannel/rw.py:345-700 | the writers that append to a stream append the encoding, and fail exactly where it does not exist |
| ReadWriter.Input.TakeBytes | tchannel/rw.py:267-283 | take returns exactly the bytes asked for or raises with the input used up |
| ReadWriter.Input.TakeBlob | tchannel/rw.py:425-433 | a length-prefixed string is read or the input is used up |
| Args.JoinIsAssociative | tchannel/tornado/message_factory.py:246-277 | putting fragments together does not depend on how they are grouped |
| Args.JoinKeepsBytes | tchannel/messages/call_continue.py:56-102 | joining neither loses nor reorders a byte |
| Args.SplitJoins | tchannel/messages/call_continue.py:70-102 | one cut joins back to its arguments if and only if no kept argument but the last leaves exactly two bytes; otherwise one empty argument has been inserted |
| Args.SplitFillsFrame | tchannel/messages/call_continue.py:72-95 | kept arguments and unused space add up to the budget, and at most two bytes are unused if anything was shifted |
| Args.SplitShiftsNothing | tchannel/messages/call_continue.py:72-102 | nothing is shifted if and only if there are no arguments or they leave more than two bytes of the budget |
| Args.SplitShrinks | tchannel/messages/call_continue.py:72-95 | cutting adds at most two length fields to what is to be sent |
| Messages.FrameSizeFits | tchannel/frame.py:64-72 | a frame's size fits its two bytes if and only if the payload is at most MAX_PAYLOAD_SIZE |
| Messages.FrameRoundTrip | tchannel/frame.py:47-72 | a frame followed by anything is read back and the rest is left |
| Messages.MessageFits | tchannel/tornado/connection.py:865-889 | a message whose fields are in range can be written if and only if its payload fits in a frame |
| Messages.WriteFrameTo | tchannel/frame.py:64-72 | writing to a stream appends the frame's bytes, or fails exactly where a number does not fit |
| Messages.ReadFrameFrom | tchannel/frame.py:47-62 | reading from a stream yields the frame it starts with, nothing where the size is missing or 0, or an error, and leaves the rest |
| WireLayout.FirstByteCountsMost | tchannel/rw.py:345-375 | the most significant byte of a number comes first |
| WireLayout.FrameIsLaidOut | tchannel/frame.py:32-72 | a written frame byte by byte: the size in bytes 0 and 1, the type in byte 2, a zero, the id in bytes 4 to 7, eight zeros, and the payload |
| WireLayout.AnyBytesRead | tchannel/frame.py:47-62 | what any bytes are read as and what is left of the stream: nothing without a size or with a size of 0, a frame if and only if the size is at least 16 and so many bytes are there, and else an error |
| WireLayout.RequestIsLaidOut | tchannel/messages/call_request.py:59-73 | the payload of a request: flags, ttl, tracing, service, headers, checksum and arguments, with the widths of their numbers and length fields |
| WireLayout.ResponseIsLaidOut | tchannel/messages/call_response.py:56-69 | the payload of a response: flags, code, tracing, headers, checksum and arguments |
| WireLayout.ContinueIsLaidOut | tchannel/messages/call_request_continue.py:52-57 | the payload of a continue message: flags, checksum and arguments |
| WireLayout.MessageIsLaidOut | tchannel/messages/types.py:28-32 | a message is its payload in a frame of its id and of type 3, 4, 19 or 20 |
| WireLayout.ReadByType | tchannel/tornado/connection.py:905-956 | a message that is read has the kind of the type byte and the id of its frame |
| Messages.PayloadRoundTrip | tchannel/messages/call_request.py:43-73 | the payload of a call or continue message decodes to the message, a call without arguments to one with three empty ones and every other with its own |
| Messages.MessageOverWire | tchannel/tornado/connection.py:905-956 | one message written to the connection is read from it by type, and the stream stands after it |
| Messages.MessagesOverWire | tchannel/tornado/connection.py:868-889 | so is any run of messages whose ids have been assigned |
| MessageIds.EnqueuedOverWire | tchannel/tornado/connection.py:865-897 | any run of messages is read back under the ids assigned when they are enqueued; a message keeps its id unless it is 0 and the id drawn is not |
| MessageIds.DrawnIdsDiffer | tchannel/tornado/connection.py:861-863 | message ids repeat only after MAX_MESSAGE_ID draws |
| MessageIds.ZeroIsDrawn | tchannel/tornado/connection.py:861-863 | every MAX_MESSAGE_ID-th draw, and no other, is 0 |
| MessageIds.FirstIdIsNotZero | tchannel/tornado/connection.py:303-319 | the first frame of a message goes out under its id if and only if that is not 0, and never under 0 |
| Messages.TruncatedFrameFails | tchannel/frame.py:47-62 | no strict prefix of a written message is read as a message |
| Messages.WidthOfPayload | tchannel/rw.py:260-265 | a payload is at least as long as its width if and only if its contents make up for missing arguments |
| Messages.ShortMessage | tchannel/messages/call_request_continue.py:52-57 | a continue message of four bytes whose width is eight |
| Checksums.FoldArgsSeesBytes | tchannel/messages/common.py:118-140 | the running sum of arguments depends on their bytes alone |
| Checksums.FoldLoop | tchannel/messages/common.py:124-138 | the checksum loop computes the fold over all the bytes |
| Checksums.ComputeChecksum | tchannel/messages/common.py:118-140 | compute_checksum by type, with a missing or None previous sum counted as 0 |
| Fragmentation.FragmentShrinks | tchannel/messages/call_request_continue.py:42-49 | what is shifted on is smaller by what the frame carries |
| Fragmentation.CutShape | tchannel/tornado/message_factory.py:331-344 | the frames keep id and checksum; the first has the message's own kind, the others are request continuations for a request and response continuations for a response; flags are 1 on all but the last |
| Fragmentation.OneFrame | tchannel/messages/call_continue.py:97-102 | a message goes out in one frame if and only if it has no arguments and its fields fit, or its arguments leave more than two bytes over |
| Fragmentation.CutJoins | tchannel/messages/call_continue.py:56-102 | all frames of a message join to its arguments if and only if no cut leaves two bytes over, and to one more for each that does |
| Fragmentation.FramesFit | tchannel/tornado/message_factory.py:323-344 | every frame fits the payload and every frame but the last leaves at most two bytes unused |
| Fragmentation.FrameCount | tchannel/tornado/message_factory.py:334-344 | the generator stops, after a number of frames bounded by the bytes of the arguments |
| Fragmentation.SigningKeepsLength | tchannel/tornado/message_factory.py:323-333 | signing leaves the length of a frame alone if and only if a checksum value was present, and else adds four bytes |
| Fragmentation.ChecksumOfAllBytes | tchannel/tornado/message_factory.py:348-358 | the checksum on each frame is that of all the bytes sent so far, however they were cut |
| Reassembly.ClosedForGood | tchannel/tornado/message_factory.py:237-277 | whatever continue message arrives, intact or corrupted, a closed stream keeps its content and stays closed |
| Reassembly.StateAfter | tchannel/tornado/message_factory.py:235-293 | after each frame of a call the receiver holds exactly the arguments sent so far, all but the last of them closed |
| Reassembly.GetsThrough | tchannel/tornado/message_factory.py:246-282 | no frame of a call makes build raise if and only if the frames join to at most three arguments |
| Refusals.AcceptedIffSumMatches | tchannel/messages/common.py:118-182 | a message, call or continue, is accepted if and only if its value is the CRC of its type over all its bytes on top of the sum kept, or absent for type none; each refusal has its own reason |
| Refusals.SignedIffSumMatches | tchannel/messages/common.py:143-158 | signing gives a message the checksum under which it is accepted, and changes no other field |
| Refusals.WrongSumFailsCall | tchannel/tornado/message_factory.py:267-278 | a continue frame with a wrong checksum is refused: its sum is forgotten, and the first open stream fails and keeps its content |
| Refusals.WrongSumRefusesCall | tchannel/tornado/message_factory.py:238-242 | a call message with a wrong checksum is refused: its sum is forgotten, and a call under way under its id stays |
| Refusals.UnknownSumRefused | tchannel/tornado/message_factory.py:274-278 | an unknown checksum type is refused; the sum stays, and the open stream of the call it continues fails |
| Refusals.RefusedUnchanged | tchannel/tornado/message_factory.py:259-265 | a farm32 checksum and a continue frame of no known call are refused and change nothing |
| Refusals.CallFills | tchannel/tornado/message_factory.py:238-255 | an accepted call message fills a stream for each argument, closes all but the last unless it is the only frame, and is kept if and only if flags are 1; a fourth argument is refused once the sum is kept |
| Refusals.ContinueFills | tchannel/tornado/message_factory.py:280-294 | an accepted continue frame goes on where the open stream left off, closes what it completes, and keeps the call if and only if flags are 1; a fourth argument is refused once the others are written and the sum is kept |
| Refusals.NothingOpenRefused | tchannel/tornado/message_factory.py:280-284 | when every stream is closed a continue frame with arguments is refused and changes no stream |
| Refusals.ChangedFrame | tchannel/tornado/message_factory.py:274-278 | a frame of a call under way that arrives with other arguments is refused if and only if the bytes received come to another sum than the bytes sent; then the call's open stream fails |
| EndToEnd.SentIsSendable | tchannel/tornado/message_factory.py:323-344 | every frame of a call has fields in range and fits its 16-bit size |
| EndToEnd.FirstFrameMustFit | tchannel/tornado/message_factory.py:323-344 | the first frame can be written if and only if what it keeps fits once it is signed; when others follow, if and only if there is room and the checksum value was present |
| EndToEnd.HeaderMustFit | tchannel/tornado/message_factory.py:323-333 | with its checksum value present, the first frame of a call can be written if and only if its header leaves the payload any room |
| EndToEnd.FramesKeepId | tchannel/tornado/connection.py:303-346 | whatever else is written in between, the frames of a call keep its id if and only if that is not 0 |
| EndToEnd.OneMessageMoves | tchannel/tornado/connection.py:303-346 | the frames of one message without an id go out as those of the same message under the id drawn for it, unless that is 0 |
| EndToEnd.FramesOverWire | tchannel/tornado/connection.py:303-346 | the bytes of the frames of a call with an id decode to those frames |
| EndToEnd.CallRoundTrip | tchannel/tornado/message_factory.py:160-171 | the arguments arrive, every stream closed and no table entry left, if and only if the first frame had room for one and no cut left two bytes over; otherwise some frame raises |
| EndToEnd.LastForgets | tchannel/tornado/message_factory.py:354-368 | an id has a running checksum exactly between its first and its last frame |
| FailingCalls.ResidueBreaksCall | tchannel/messages/call_continue.py:83-91 | a response with room for its arguments whose frames join to four, so that build raises |
| FailingCalls.HeaderTooLong | tchannel/tornado/message_factory.py:323-333 | a request whose header alone is too long, so that its first frame cannot be written |
| FailingCalls.NoRoomForArgument | tchannel/messages/call_continue.py:72-76 | a request whose header leaves one byte: its frames are sent, and build raises |
| FailingCalls.UnsignedIsTooLong | tchannel/tornado/message_factory.py:323-333 | a response cut before its checksum has a value, whose first frame cannot be written |
| FailingCalls.ContinueWithoutCall | tchannel/tornado/message_factory.py:256-265 | a continue message under an id that no frame had before makes build raise |
| FailingCalls.ZeroIdBreaksCall | tchannel/tornado/connection.py:303-346 | the second message of a call without an id goes out under another id than any frame of the first, unless almost all ids were drawn in between, and build raises for it |
| FailingCalls.ZeroIdExample | tchannel/tornado/connection.py:303-346 | a response in two messages with nothing else amiss for which it does |
| FailingCalls.ReusedAfterError | tchannel/tornado/message_factory.py:279-291 | a new factory that builds a first fragment, an error and another call of the id raises for the last if and only if its sum continued from the first differs from its own |
| FailingCalls.RefusedAfterError | tchannel/tornado/message_factory.py:279-291 | two responses for which it does |
| Multiplexing.OthersDoNotMatter | tchannel/tornado/message_factory.py:227-293 | what is kept for an id after any run of frames is what its own frames alone would leave |
| Multiplexing.ReplyIsLocal | tchannel/tornado/message_factory.py:227-293 | and so is the answer to each frame |
| Multiplexing.WireOfOneCall | tchannel/tornado/message_factory.py:312-358 | under any interleaving each call's frames are on the wire in order, signed as if alone |
| Multiplexing.OneAmongMany | tchannel/tornado/message_factory.py:227-293 | after any part of any interleaving the receiver holds for each call exactly the arguments of its frames so far, and nothing for a call not begun or finished |
| Multiplexing.TablesAgree | tchannel/tornado/message_factory.py:348-375 | after any part of any interleaving both running checksum tables are equal, and they and the message buffer hold exactly the ids started and not finished |
| Multiplexing.EveryFrameIsTaken | tchannel/tornado/message_factory.py:360-375 | every frame passes verification and is put in its place |
| Multiplexing.NothingLeft | tchannel/tornado/message_factory.py:269-277 | when all calls are through, all tables are empty |
| Multiplexing.MultiplexedRoundTrip | tchannel/tornado/message_factory.py:227-358 | whatever the interleaving of clean calls, the bytes decode to the frames, every frame is taken, and a call's last frame completes exactly the three arguments sent |
| Multiplexing.SumLeftBehind | tchannel/tornado/message_factory.py:279-291 | after an error message, a call that reuses the id is refused if and only if its sum continued from the old one differs from its own |
| Multiplexing.SumLeftBehindRefuses | tchannel/tornado/message_factory.py:279-291 | for a checksum in which different sums stay different, it is refused if and only if the sum left behind is not 0 |
| MessageFactory.SweepIsSplit | tchannel/messages/call_continue.py:72-95 | the rounds of the splitter's loop come to the recursive description of the cut |
| MessageFactory.CallMessage.FragmentInto | tchannel/messages/call_continue.py:56-102 | the in-place splitter keeps and shifts exactly what the cut says, and sets flags and id |
| MessageFactory.CallMessage.Fragment | tchannel/messages/call_response_continue.py:36-49 | the subclass wrapper returns the continuation, of a request for a request and of a response for a response, or nothing |
| MessageFactory.MessageFactory.GenerateChecksum | tchannel/tornado/message_factory.py:348-358 | signs a message and keeps its sum until the last fragment; an unsupported type raises and changes nothing |
| MessageFactory.MessageFactory.Fragment | tchannel/tornado/message_factory.py:312-346 | the generator yields the signed frames of the message, continuing the sum of the frames before |
| MessageFactory.MessageFactory.VerifyMessage | tchannel/tornado/message_factory.py:360-375 | the verdict of `Refusals.AcceptedIffSumMatches` on the sum kept for the id; an accepted sum is kept until the last frame, and a wrong one makes the old sum be forgotten |
| MessageFactory.MessageFactory.PrepareArgs | tchannel/tornado/message_factory.py:160-171 | each argument goes to its own stream and closes the one before; a fourth raises |
| MessageFactory.MessageFactory.Build | tchannel/tornado/message_factory.py:227-277 | changes what is kept for the frame's own id as the receiver's function says, and nothing for other ids |
| MessageFactory.MessageFactory.BuildError | tchannel/tornado/message_factory.py:278-291 | drops the context of the id and fails its streams, leaving the running sum |
| MessageFactory.BuildAll | tchannel/tornado/message_factory.py:227-293 | a new factory that builds any run of frames holds for every id what the receiver of Multiplexing holds, and raises for the same frames with the same failures |
| MessageFactory.CallContext.CloseArgstreams | tchannel/tornado/message_factory.py:377-385 | closes the first num streams, one more when the message is complete |
| MessageFactory.CallContext.Fill | tchannel/tornado/message_factory.py:246-277 | writes a continue message's arguments from the open stream on |
| Streaming.Outgoing.BuildRawMessage | tchannel/tornado/message_factory.py:77-152 | a call the first time and a continuation later, flagged by whether it is complete; nothing once it is |
| Streaming.Outgoing.Stream | tchannel/tornado/connection.py:580-624 | however the streams are divided into reads, the messages join to the three contents, the first is a call, the rest continue it, and exactly the last carries flag none; every chunk of a stream but the first sends what there is so far |
| Streaming.MessagesHaveShape | tchannel/tornado/message_factory.py:77-152 | each message field by field: kind, header, id, checksum, and flags 0 on the last and 1 on the others |
| Streaming.CompleteIsCall | tchannel/tornado/connection.py:580-624 | that shape is what fragmentation and reassembly require, if the request has an id |
| Streaming.StreamsKeepId | tchannel/tornado/connection.py:303-319 | the frames written for it keep its id if and only if that is not 0 |
| Streaming.StreamsArrive | tchannel/tornado/connection.py:580-624 | so for a request with an id the messages that streaming yields are a call, its frames are the ones written, and the contents of the streams arrive if and only if it is clean |
| Heaps.FixRestores | tchannel/container/heap.py:107-110 | fix repairs a heap in which one entry has any key |
| Heaps.FixPermutes | tchannel/container/heap.py:107-110 | without losing or duplicating an entry |
| Heaps.FixOfHeap | tchannel/container/heap.py:107-110 | fix leaves a heap as it is |
| Heaps.DownTakes | tchannel/container/heap.py:123-138 | what comes to stand at a position: the entry itself if neither child comes before it by rank and then order, else the child that does, and the second if the children are equal |
| Heaps.PushKeepsHeap | tchannel/container/heap.py:82-85 | push yields a heap |
| Heaps.PushAdds | tchannel/container/heap.py:82-85 | of the old entries and the new one |
| Heaps.PopKeepsHeap | tchannel/container/heap.py:88-93 | pop yields a heap |
| Heaps.PopTakesRoot | tchannel/container/heap.py:88-93 | of all entries but the root |
| Heaps.RemoveKeepsHeap | tchannel/container/heap.py:96-104 | remove yields a heap |
| Heaps.RemoveTakesOne | tchannel/container/heap.py:96-104 | of all entries but the one removed |
| Heaps.InitMakesHeap | tchannel/container/heap.py:74-79 | init makes a heap of any sequence |
| Heaps.InitPermutes | tchannel/container/heap.py:74-79 | of the same entries |
| Heaps.RootIsLeast | tchannel/peer_heap.py:125-134 | the root of a heap has the least rank, and the least order among entries of that rank |
| Heaps.DrainSorts | tchannel/container/heap.py:88-93 | popping until the heap is empty yields all entries in ascending order of rank and order |
| Heaps.AfterFirstFix | tchannel/peer_heap.py:166-176 | after two orders were exchanged and the first peer fixed, only the second is out of place |
| Heaps.SwapOrderRestores | tchannel/peer_heap.py:166-176 | exchanging the orders of any two peers of a heap and fixing one and then the other gives a heap |
| Heaps.SwapOrderPermutes | tchannel/peer_heap.py:166-176 | of the same entries but for the orders exchanged |
| Heaps.TwoArbitraryChanges | tchannel/peer_heap.py:63-78 | with two arbitrary keys changed this would be false |
| Heaps.SearchStep | tchannel/container/heap.py:155-177 | one round of the search keeps what is seen and what is next in the order of the search |
| Heaps.FirstSiblingFirst | tchannel/container/heap.py:165-175 | of two siblings the second is looked at first if and only if it comes before the first by rank and then order |
| Heaps.EarlierIsTotal | tchannel/container/heap.py:155-177 | of two positions exactly one is looked at first |
| Heaps.EarlierIsNotDeeper | tchannel/container/heap.py:155-177 | and it is not deeper |
| Heaps.FirstMatchNotLeast | tchannel/container/heap.py:141-152 | a heap and a predicate for which the first match in that order is not the least |
| Heaps.UnderIsNotLess | tchannel/container/heap.py:155-177 | in a heap nothing that lies under a position, or under its later sibling, is less than it |
| Heaps.LeastExactlyOfThoseUnder | tchannel/container/heap.py:155-177 | exactly those positions are never less, in any heap that is searched in the same order |
| Heaps.FirstMatchIsLeast | tchannel/container/heap.py:141-152 | the first match is sure to be a least one if and only if every match lies under it |
| Heaps.MatchingRootIsLeast | tchannel/container/heap.py:141-152 | if the root matches, it is found and is a least match |
| PeerHeap.PeerHeap.SwapPeers | tchannel/peer_heap.py:91-94 | exchanges two positions and the indexes of the peers there |
| PeerHeap.PeerHeap.MoveUp | tchannel/container/heap.py:113-120 | the loop of up, in place |
| PeerHeap.PeerHeap.MoveDown | tchannel/container/heap.py:123-138 | the loop of down, in place |
| PeerHeap.PeerHeap.InitHeap | tchannel/container/heap.py:74-79 | the loop of init, in place |
| PeerHeap.PeerHeap.PopPeer | tchannel/peer_heap.py:100-109 | the root comes out, every other peer stays at the index it knows, and the rest is a heap |
| PeerHeap.PeerHeap.RemovePeer | tchannel/peer_heap.py:136-147 | the peer goes, left with the heap's new size as its index, and the rest is a heap; an index out of range raises and changes nothing |
| PeerHeap.PeerHeap.UpdatePeer | tchannel/peer_heap.py:96-98 | a heap again after one peer's key has changed; for a peer that has left, nothing moves, and an index beyond the end raises |
| PeerHeap.PeerHeap.PushPeer | tchannel/peer_heap.py:111-116 | the peer joins with the next order number plus the random one |
| PeerHeap.PeerHeap.SwapOrder | tchannel/peer_heap.py:166-176 | exchanges the orders and repairs twice, each time at the index the peer then has |
| PeerHeap.PeerHeap.AddAndShuffle | tchannel/peer_heap.py:118-123 | for every random choice a heap stays a heap, gains the peer, and exactly one exchange of orders takes place, with the peer at the second number drawn |
| PeerHeap.PeerHeap.Smallest | tchannel/container/heap.py:141-179 | no match is reported exactly when there is none; otherwise the match first in search order, and none that lies under it is less; each position is looked at once at most |
| HostPorts.NameRoundTrip | tchannel/tornado/peer.py:102-103 | a peer's printed host-port is taken apart into its host and port |
| HostPorts.CanonicalIsStable | tchannel/tornado/peer.py:211-214 | printing a host-port a second time changes nothing |
| HostPorts.CanonicalExactly | tchannel/tornado/peer.py:211-214 | a host-port prints as itself if and only if what follows its last colon is a number as printed |
| HostPorts.LeadingZeroIsLost | tchannel/tornado/peer.py:211-214 | h:01 prints as h:1 |
| HostPorts.IntOf | tchannel/tornado/peer.py:102-103 | blanks, a sign or none, digits and blanks are read as a port, negative after a minus sign |
| HostPorts.IntOnlyOf | tchannel/tornado/peer.py:102-103 | and nothing else is |
| HostPorts.NextDigit | tchannel/tornado/peer.py:103 | the digits are read in base ten |
| HostPorts.EphemeralByName | tchannel/tornado/peer.py:239-242 | a peer is ephemeral if and only if its printed host-port ends with :0, or starts with 0.0.0.0 and its last colon |
| PeerGroup.ViewsPartition | tchannel/tornado/peer.py:216-232 | outgoing and incoming views divide an arranged deque |
| PeerGroup.FirstIsIncoming | tchannel/tornado/peer.py:149-154 | the first connection is incoming if and only if any is |
| PeerGroup.ViewsNeedArrangement | tchannel/tornado/peer.py:216-232 | and only an arranged one |
| PeerGroup.PeerGroup.Connect | tchannel/tornado/peer.py:137-165 | a connected peer hands out its first connection, which is an incoming one if it has any; one without starts an attempt, or joins the one under way |
| PeerGroup.PeerGroup.OnConnect | tchannel/tornado/peer.py:167-175 | the attempt ends, and a connection it made is registered, after which the rank is the current one; the group stays coherent |
| PeerGroup.PeerGroup.UpdateHeap | tchannel/tornado/peer.py:660-667 | brings a peer whose rank is out of date back in place; for a removed peer, raises exactly when its rank changed and its old index lies beyond the end |
| PeerGroup.PeerGroup.RegisterIncoming | tchannel/tornado/peer.py:198-204 | keeps the group coherent; the connection goes first and the rank becomes the current one; raises exactly when the peer has left, its rank changed, and its index lies beyond the heap |
| PeerGroup.PeerGroup.RegisterOutgoing | tchannel/tornado/peer.py:190-196 | the same, and the connection goes last |
| PeerGroup.PeerGroup.Close | tchannel/tornado/peer.py:178-184 | the same, and the connection is gone |
| PeerGroup.PeerGroup.PendingChange | tchannel/tornado/connection.py:552-560 | the same for the peer that the connection reports to: its rank moves by exactly the change, if the connection is among its connections |
| PeerGroup.PeerGroup.Add | tchannel/tornado/peer.py:648-658 | a new heap peer is filed under the name it prints; the group stays coherent if and only if no heap peer had that name |
| PeerGroup.PeerGroup.Get | tchannel/tornado/peer.py:633-646 | finds or adds; raises when the host-port does not print as itself; coherent if and only if no heap peer is displaced |
| PeerGroup.PeerGroup.GetIsolated | tchannel/tornado/peer.py:669-689 | finds or adds outside the heap, under the same condition |
| PeerGroup.PeerGroup.Remove | tchannel/tornado/peer.py:619-631 | the peer leaves dictionary and heap, and the group stays coherent; a heap peer keeps an index beyond the heap unless it was the only one |
| PeerGroup.PeerGroup.Choose | tchannel/tornado/peer.py:716-736 | chooses a heap peer that is neither ephemeral nor on the blacklist exactly when there is one; the first in search order, so the best peer if it is permitted |
| PeerGroup.TwoSpellings | tchannel/tornado/peer.py:633-646 | getting h:1 and then h:01 raises and leaves a heap peer outside the dictionary |
| PeerGroup.RemovedThenConnected | tchannel/tornado/peer.py:619-631 | a heap peer without connections that is removed while others stay raises when a connection comes in |
| PeerGroup.RaisesAfterRemoval | tchannel/tornado/peer.py:198-204 | it happens in a group of two |
| PeerGroup.RootPrefersIncoming | tchannel/peer_strategy.py:39-60 | a heap peer with fewer pendings than half the largest rank keeps every peer without a connection from the root, and if it has an incoming connection every peer without one |
| PeerGroup.RootHasFewestPendings | tchannel/peer_strategy.py:54-60 | the root of a coherent group has no more requests pending than any heap peer of its own tier |
| PeerGroup.RootComesFirst | tchannel/peer_heap.py:63-78 | it has the least rank, and among peers of its rank the least order |
| PeerGroup.RankByTier | tchannel/peer_strategy.py:39-60 | a rank is 2^63-1 without connections, and else what is pending on all of them, with half of that on top unless one of them is incoming |
| PeerGroup.TotalsAddUp | tchannel/tornado/peer.py:234-237 | what is pending on connections adds up |
| PeerGroup.SetCount | tchannel/tornado/peer.py:234-237 | and moves with each of them |
| Retry.GetPeerConnection | tchannel/tornado/peer.py:315-351 | while the host-ports stay the same, ends, tries none twice, and reports none only after each was tried or blacklisted |
| Retry.SendWithRetry | tchannel/tornado/peer.py:480-545 | at most limit plus one attempts, to distinct host-ports, each a candidate of the group as it then is; responds or raises because it cannot go on; falls out of the loop exactly when the limit is negative |
| Replay.InMemStream.Read | tchannel/tornado/stream.py:124-156 | a read takes whole chunks off the front until MAX_PAYLOAD_SIZE bytes are there or none is left, and no more chunks than that needs; it is empty only at the end |
| Replay.InMemStream.ReadSome | tchannel/tornado/stream.py:38-56 | reading yields the content from the front, and to the end the whole content |
| Replay.InMemStream.Write | tchannel/tornado/stream.py:158-172 | appends a chunk that is not empty, unless the stream is closed or failed |
| Replay.InMemStream.Clone | tchannel/tornado/stream.py:117-122 | a clone has the same content and state, and its own buffer |
| Replay.Request.constructor | tchannel/tornado/request.py:79-85 | a request saves clones of its streams unless it is streaming, which it is unless its two later streams both close automatically or are both complete |
| Replay.Request.Rewind | tchannel/tornado/request.py:89-98 | the live streams hold what was saved, whatever happened to the earlier ones; those of a streaming request are left alone |
| Replay.Request.Attempt | tchannel/tornado/connection.py:647-658 | sends what the live streams hold, or a part of it from the front if it breaks off, and leaves the saved copies alone |
| Replay.Replays | tchannel/tornado/request.py:89-112 | every attempt after any number of failures and rewinds sends the saved contents from the front, to the end unless it breaks off |
| PendingCalls.StepKeepsInv | tchannel/tornado/connection.py:171-272 | every event keeps a running call registered under its own id, a timed-out or cancelled one unregistered, and a responded one registered only while its response arrives |
| PendingCalls.RunSettlesOnce | tchannel/tornado/connection.py:239-272 | over any run no call is settled twice |
| PendingCalls.TimeoutIsFinal | tchannel/tornado/connection.py:730-746 | the timeout of a running call finds its entry, no later event completes the call, and its id comes back only with another send |
| PendingCalls.SendNeedsFreeId | tchannel/tornado/connection.py:672-678 | under an unregistered id a send keeps the table sound if and only if no response is under construction there |
| PendingCalls.RemoveNeedsSettledEntry | tchannel/tornado/connection.py:710-712 | removing a request keeps the table sound if and only if no running call holds its id |
| PendingCalls.CloseNeedsNothingLeft | tchannel/tornado/connection.py:171-181 | over all runs, closing finds only running calls if and only if no registered call has a response under construction or has failed |
| PendingCalls.CloseResolvesAll | tchannel/tornado/connection.py:171-181 | closing resolves every running call |
| PendingCalls.StreamingResponseStaysRegistered | tchannel/tornado/connection.py:244-257 | a run after which a settled call is still registered |
| PendingCalls.FailedRequestStaysRegistered | tchannel/tornado/connection.py:651-656 | and another one |
| PendingCalls.AnsweredUnderOwnId | tchannel/tornado/connection.py:239-257 | over any run a call is responded to only by a message with its own id |
| PendingCalls.ZeroIdUnanswered | tchannel/tornado/connection.py:660-680 | so a request registered under 0 is never responded to, since nothing goes out under 0 |
| CallOutcomes.FirstSettlementStands | tchannel/tornado/connection.py:171-272 | over any run a running call is settled by the first error or accepted response under its id, failure of its own write, timeout of its own, or closing, as failed, responded, failed, timed out or cancelled; without any of these it goes on running |
| CallOutcomes.ResponseCompletes | tchannel/tornado/connection.py:239-257 | an accepted response completes the running call with its id, which stays registered if and only if more is to come |
| CallOutcomes.ErrorFails | tchannel/tornado/connection.py:259-268 | an error fails the running call with its id and unregisters it |
| CallOutcomes.LastContinuationEnds | tchannel/tornado/connection.py:246-253 | a continuation unregisters the call if and only if it is the last, and settles nothing |
| CallOutcomes.OtherAnswersAreIgnored | tchannel/tornado/connection.py:228-235 | an answer under an id that is not registered, or one that the factory refuses, changes nothing |
| CallOutcomes.WholeExchange | tchannel/tornado/connection.py:239-257 | a request and a response in two messages leave a completed call and the table as it was |
| CallOutcomes.SendRegisters | tchannel/tornado/connection.py:672-680 | a send makes a running call registered under its id and leaves the others alone |
| CallOutcomes.LeavesTableIff | tchannel/tornado/connection.py:171-272 | an id leaves the table if and only if one of these: its error, its whole response, its last continuation, the timeout of its running call, its removal, closing |
| CallOutcomes.RespondingAfter | tchannel/tornado/connection.py:239-272 | a response is under construction under an id from an accepted first fragment to the last continuation or an error |
| CallOutcomes.TombstoneAfter | tchannel/tornado/connection.py:730-746 | the id of a call that timed out is remembered until it is forgotten or the connection closes |
| CallOutcomes.StreamingAfter | tchannel/tornado/connection.py:674-680 | a request counts as pending from its send until its write has ended |
| PendingCalls.Connection.SendRequest | tchannel/tornado/connection.py:660-680 | registers a running future under the request's id |
| PendingCalls.Connection.StreamFinished | tchannel/tornado/connection.py:651-658 | a failed write fails the call if it is running, and the pending count drops |
| PendingCalls.Connection.OnMessage | tchannel/tornado/connection.py:212-272 | an answer is the step that `CallOutcomes` describes: a running call is completed or failed, and the table is left as the answer says |
| PendingCalls.Connection.RequestTimedOut | tchannel/tornado/connection.py:730-746 | the entry is always there to be taken out |
| PendingCalls.Connection.RemoveOutstandingRequest | tchannel/tornado/connection.py:710-712 | unregisters a request |
| PendingCalls.Connection.OnClose | tchannel/tornado/connection.py:171-181 | fails every registered call and empties the table |

## Left out

- Sockets, the event loop, threads and clocks: only "a callback may run" and "a timer may fire" remain, as steps in any order.
- The arithmetic of CRC-32 and CRC-32C, farm32 (not implemented in the source), and conversions between text and bytes.
- Arguments that are None: the source does no boundary check for them; arguments are byte strings here.
- The conversion of decoded headers to a dictionary, which drops repeated keys; headers stay a list of pairs.
- The loops that compute `length` in rw.py are functions, since nothing is changed in place.
- PipeStream: an argument stream in the replay model is an in-memory one.
- A read that raises in the middle of `_stream`: no last message is sent then, and nothing is claimed.
- Handshakes, ping and pong, unknown message types, and cancellation.
- `PeerGroup.clear`, which empties the dictionary and not the heap: no invariant is kept there.
- A pinned host-port in `_get_peer_connection`: its loop ignores the blacklist.
- The retry decision table of `should_retry_on_error`: its outcome is a parameter of the retry loop.
- Peeking at a heap, `lookup`, `hosts` and `peers`: reading them settles them.
- MessageFactory.MessageFactory.Build: argument streams are values inside their context, so a handler that reads or closes a stream while it is being filled is not modelled.
- Retry.GetPeerConnection: the host-ports of the peers stay the same while it runs, as its promise assumes; ranks and connections may change.
- PendingCalls.Connection.SendRequest: asks that no response to an earlier call is still under construction under the id, where the source checks only that it is not registered; `SendNeedsFreeId` says why.
- PendingCalls.Connection.RemoveOutstandingRequest: asks that no running call holds the id, since it would go on unregistered; `RemoveNeedsSettledEntry` says so.
- PendingCalls.CloseResolvesAll: asks that no registered call has been settled, and `CloseNeedsNothingLeft` says when that is so.
- PendingCalls.Connection.OnClose: asks that no registered call has been settled; what the futures library does with a second result is not part of this model.
- Streaming.Outgoing.Stream: the chunks that reading yields are given, and no chunk is empty, since an empty read is the end.
- ReadWriter.RoundTrip: length, count and switch prefixes are numbers of a given width, as everywhere in the messages, where rw.py would take any reader and writer there.
- HostPorts.CanonicalExactly: ports are spelled in ASCII; Python's `int` also takes underscores between digits, and the digits and blanks of other scripts.
- PeerGroup.PeerGroup.RegisterIncoming: a connection is registered once; a second time fails the assertion of tchannel/tornado/connection.py:157-166 after it has been added.
- PeerGroup.PeerGroup.RegisterOutgoing: the same.
- PeerGroup.PeerGroup.Connect: what `outgoing` does to make the connection; its outcome is handed to `OnConnect`.
- Replay.Request.Attempt: the coroutine of the attempt before has come to its end when the request is rewound. One that still waits for its last write (tchannel/tornado/connection.py:607-622) would mark the request complete after the rewind, and `BuildRawMessage` then builds nothing more of an attempt in several messages.
- Replay.Replays: the same.
