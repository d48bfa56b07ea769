# USB/IP bridge: a verified model

This project models, in Dafny, how `usbipdevirt` moves USB requests between a local USB host and a remote
USB/IP server, and proves what that machinery keeps.

- **The connection** (`Wire`, `Commands`, `Responses`, `Connection`, `Client`). The 48-byte headers, the two
  streams, and the connection object in its unsplit form and as writer and reader halves. The classes of
  `Client` update their maps, counter and socket in place as the code does; each method is tied to a step
  function of `Connection` or `Responses`. A socket takes `room` more bytes before writes fail; a write that
  fails delivers a strict prefix. `next_seqnum` wraps around.
- **The bridge** (`BridgeSystem` and the modules named `Bridge...`). Any number of threads calling `submit`
  (or `send_unlink`) through the writer mutex, the endpoint loops, the reader thread with its drain, and the
  server, as one step system. Each region under the shared-state mutex and each region under the channel
  map's mutex is one step, except that the drain holds the map's mutex over many; the writer mutex is held
  across steps; frames are written, and arrive, in pieces of any size, and after the first failed write the
  outgoing direction stays dead. `ServerBytes` lets the server send anything at all. A *conforming* server
  answers only commands it can decode from the bytes written so far and settles each submission once, by a
  RET_SUBMIT whose data follows the direction of the command or by a RET_UNLINK with -ECONNRESET (the
  message tables of USBIP_CMD_SUBMIT, USBIP_RET_SUBMIT, USBIP_CMD_UNLINK and USBIP_RET_UNLINK in the Linux
  kernel's `usbip_protocol` document). `BridgeClient` shows that the steps, taken without interruption, do
  what the methods of the halves do, and `BridgeLocks` that they are runs of single acquisitions and releases
  of the three mutexes. Sequence numbers are allocated only while fewer than 2^32 - 1 are used.
- **The gadget side** (`Descriptors`, `Gadget`, `Monitor`, `Records`, `Scripts`, `EventLoop`). The walk over a
  configuration descriptor, the buffers handed to the raw-gadget driver (a little-endian machine), and the
  event loop with its handlers. The loop runs against a `World` whose script says how each call turns out, so its contracts
  hold for every behaviour of the driver, the bus and the remote device, and which records every call.
  `Judge` reads that record and says whether each call was in order; what an accepted record means, at every
  point of it, is proved in `Records`, apart from the loop. `Scripts` shows that the order leaves the loop no
  choice, so that an accepted record is exactly what a run on its script produces.
- **The device list** (`DeviceList`). The nested read loops and the serialised list they undo.

What the proofs bring to light about the code (`BridgeFindings` and `Findings` hold the runs that show it):

- A response can overtake its caller. The channel is inserted after the command is written, so a server
  that answers quickly makes the reader drop the response, and the caller then waits until the reader stops
  (`AnswerCanBeLost`). `DroppedExactlyWhenEarly` says exactly when that happens.
- A caller that inserts its channel after the drain waits for ever (`TooLateWaitsForEver`), and one can
  (`CallerWaitsForEver`); every other caller is told exactly one result (`DrainTellsEveryoneInTime`).
- The two forms of the connection agree at every point of a run exactly when no send fails under a sequence
  number that is still remembered, which takes a counter that has wrapped around (`FormsAgreeExactly`,
  `NoClashBeforeWrap`, `ReusedKeyIsForgotten`).
- An OUT control request with data announces `wLength` bytes but carries at most 512 of those read, so the
  server stays in step exactly when `wLength` is at most 512 and all of it was transferred
  (`OutDataIsFramedExactly`); the loop does forward such commands (`WriteMoreThanFits`).
- A control IN request that the remote device answers with more than 512 bytes ends the program
  (`LongAnswerEndsRun`, `AnswerWithMoreThanFits`).
- A second SET_CONFIGURATION loses sight of the endpoint threads of the first. After a join, every thread
  ever started has been waited for exactly when no configuration was brought up over threads still to be
  waited for (`NobodyIsLostExactly`), and that does happen (`SetConfigurationTwice`).

The layouts of what is sent and received are stated word by word or byte by byte in the lemmas named `...Layout` and
in `Responses.RecvReadsOff`, with the two examples in the protocol's description (`Wire.KnownCmdSubmit` and
`Wire.KnownRetSubmit`), besides the round trips below.

`dafny verify dfyconfig.toml` checks the whole project.

## Model

| member | source | states |
|---|---|---|
| Wire.CmdSubmitOverlay | usbip/src/wire.rs:74-88 | a CMD_SUBMIT header overlaid on its own 48 bytes, whatever follows them, is the same header, field by field |
| Wire.CmdUnlinkOverlay | usbip/src/wire.rs:91-101 | the same for CMD_UNLINK |
| Wire.RetSubmitOverlay | usbip/src/wire.rs:104-118 | the same for RET_SUBMIT, with a signed status |
| Wire.RetUnlinkOverlay | usbip/src/wire.rs:121-131 | the same for RET_UNLINK |
| Wire.RetSubmitBytes | usbip/src/wire.rs:104-119 | any 48 bytes are the encoding of the RET_SUBMIT header read from them: the layout loses nothing |
| Wire.RetUnlinkBytes | usbip/src/wire.rs:121-132 | the same for RET_UNLINK |
| Commands.SubmitLayout | usbip/src/client.rs:396-416 | the bytes of any submission word by word, with the code 1, no start frame and 0xffffffff packets; the setup bytes; the data for OUT, nothing for IN |
| Commands.UnlinkLayout | usbip/src/client.rs:428-436 | the bytes of any unlink word by word, with the code 2, direction and endpoint 0, and 24 zero bytes |
| Commands.CommandRoundTrip | usbip/src/client.rs:384-439 | a server reads a written command back, whatever follows it, if and only if the length it announces is the length of its OUT data; an IN command never carries data |
| Commands.CutCommandIsIncomplete | usbip/src/client.rs:384-439 | a strict prefix of a command, as a failed write leaves it, is never taken for a command |
| Commands.CommandStreamRoundTrip | usbip/src/client.rs:384-439 | any sequence of commands followed by a piece of one decodes to exactly those commands and that piece |
| Commands.CommandsDecodeExactly | usbip/src/client.rs:384-439 | commands in a row are decoded in that row, whatever follows them, if and only if all announce their length truthfully |
| Responses.ReplyRoundTrip | usbip/src/client.rs:441-501 | a receive on an encoded reply that is legal for the maps returns it, settles it in the maps and leaves exactly the bytes that followed |
| Responses.RecvAcceptsOnlyReplies | usbip/src/client.rs:441-501 | conversely, whatever a receive accepts is the encoding of a legal reply, with that decoding and that effect |
| Responses.ResponseStreamRoundTrip | usbip/src/client.rs:441-501 | repeated receives on a stream of replies, each legal for the maps its predecessors leave, return exactly those replies, consume every byte and leave the maps as the replies settle them |
| Responses.RecvManyAcceptsOnlyReplies | usbip/src/client.rs:441-501 | conversely, every successful run of receives decodes some such stream |
| Responses.RecvReadsOff | usbip/src/client.rs:441-501 | what any receive gives, in the words at their offsets: codes 3 and 4, the signed status, the announced payload of an IN response, which numbers are settled, a target only at status -104, and every error |
| Client.WriteCommand | usbip/src/client.rs:384-439 | header and OUT data are written as one command: all of it, or on failure a strict prefix of its bytes, which are those of `SubmitLayout` and `UnlinkLayout` |
| Client.RecvUrbResponse | usbip/src/client.rs:441-501 | the step-by-step reads compute the receive whose round trips are proved, in every error case too |
| Client.UsbipConnection.AllocSeqnum | usbip/src/client.rs:133-137 | hands out the counter and advances it by one, from 0xffffffff to 0, and changes nothing else |
| Client.UsbipConnection.SendSubmit | usbip/src/client.rs:142-169 | new bytes, counter, maps and answer are those of the write-first step: on success the whole command is out and its number remembered with its direction; a failed write leaves the maps alone |
| Client.UsbipConnection.SendUnlink | usbip/src/client.rs:174-181 | the same for an unlink command |
| Client.UsbipConnection.Receive | usbip/src/client.rs:184-186 | a receive on the connection's own maps and stream |
| Client.UsbipConnection.IntoSplit | usbip/src/client.rs:197-214 | both halves get the one socket, share the maps, and continue from the same counter; nothing is written, and a failed clone gives nothing |
| Client.UsbipWriter.SendSubmit | usbip/src/client.rs:245-282 | new bytes, counter, maps and answer are those of the register-first step; a failed write leaves the number forgotten |
| Client.UsbipWriter.SendUnlink | usbip/src/client.rs:287-302 | the same for an unlink command |
| Client.UsbipReader.Receive | usbip/src/client.rs:316-379 | the reader half, which takes the shared maps region by region, receives as the connection does |
| Connection.StepsAgreeExactly | usbip/src/client.rs:142-302 | one operation has the same effect and answer on both forms if and only if it is not a failing send under a number that is still remembered |
| Connection.RegistrationUndone | usbip/src/client.rs:257-300 | forgetting a call that was just remembered restores the maps if and only if its number was not remembered before |
| Connection.FreshIsKept | usbip/src/client.rs:142-186 | every operation keeps all remembered numbers below the counter while it does not wrap |
| Connection.SplitRefinesConnection | usbip/src/client.rs:142-379 | for every sequence of sends, receives, arriving bytes and transport failures, and wherever the connection is split, both forms give the same output bytes, answers, counter and maps, provided no send on the halves fails under a number still remembered |
| Connection.FormsAgreeExactly | usbip/src/client.rs:142-379 | and only then: the two forms agree at every point of a run if and only if it has no such send |
| Connection.NoClashBeforeWrap | usbip/src/client.rs:236-240 | no run has such a send before the counter wraps around |
| Connection.ReusedKeyIsForgotten | usbip/src/client.rs:274-280 | with a number in use and no room to write, the split form forgets the older call and the unsplit form does not |
| BridgeSafety.StepKeeps | usbipdevirt/src/main.rs:50-119 | every step of any thread, of the reader and of any server keeps the invariant that ties counter, writer mutex, both maps, channels, results and program counters together |
| BridgeSafety.RunKeeps | usbipdevirt/src/main.rs:50-119 | so does every schedule |
| BridgeWire.RunKeepsWire | usbip/src/client.rs:384-439 | in every schedule the bytes sent are the posted commands one after the other and the part of the one being written, or the cut left by the first failed write |
| BridgeAccount.RunKeepsBook | usbipdevirt/src/main.rs:60-98 | in every schedule a thread is in at most one call, and every inserted sender not yet used is accounted for by a remembered submission, a response in the reader's hands, a dropped response or a cancellation |
| BridgePumps.RunKeepsPumps | usbipdevirt/src/main.rs:190-246 | in every schedule the packets read and payloads written by each endpoint loop match the commands it has on the wire and their answers |
| BridgeConforming.ServerView | usbip/src/client.rs:384-439 | if what is on the wire announces its lengths truthfully, the server decodes exactly the commands posted, at any moment, however their writers are scheduled |
| BridgeConforming.RunKeepsProtocol | usbip/src/client.rs:316-379 | with a conforming server, whose replies arrive in pieces of any size, the bytes not yet read are the rest of the reply being read and the replies not yet begun, and the shared maps are exactly the commands registered and not settled |
| BridgeRuns.RoutingSafety | usbipdevirt/src/main.rs:50-98 | against any server, a `submit` that returns a response returns one with its own sequence number and its own direction, with `actual_length` bytes of data for IN and none for OUT |
| BridgeStream.ReaderReceivesInARow | usbip/src/client.rs:316-379 | against any server and in any schedule, receiving in a row all the bytes the server has sent, with the calls' own directions remembered, gives exactly the responses the reader has decoded, each once, settles exactly those calls, and leaves the reply in progress and the unread bytes |
| BridgeStream.CallersGetWhatIsReceived | usbipdevirt/src/main.rs:50-98 | so against any server what a `submit` returns is, in every field and byte, one of the responses those receives give |
| BridgeDelivery.CallersGetWhatWasServed | usbipdevirt/src/main.rs:50-98 | with a conforming server it has exactly the status, length and data of the one RET_SUBMIT that the server sent for its number |
| BridgeDelivery.AnswerIsServed | usbip/src/client.rs:322-355 | so has every response the reader decodes, returned or not |
| BridgeRuns.NumbersAreUnique | usbip/src/client.rs:236-240 | no two calls are ever given the same number |
| BridgeRuns.SenderIsInOnePlace | usbipdevirt/src/main.rs:58-98 | the sender of every call that has inserted it is in exactly one place: in the map, in the reader's hands, or used once |
| BridgeRuns.WaitingIsAccountedFor | usbipdevirt/src/main.rs:60-98 | while the reader lives, a sender in the map has its submission in shared `pending`, or its response in the reader's hands, or its response was dropped before the insertion, or an unlink call cancelled it |
| BridgeRuns.DroppedExactlyWhenEarly | usbipdevirt/src/main.rs:88-98 | a decoded response is dropped if and only if its caller has not inserted its sender yet |
| BridgeRuns.ReaderNeverBlocks | usbipdevirt/src/main.rs:58-118 | against any server each channel is sent to at most once, so the reader's sends never block, in the drain either, and the drain can always go on |
| BridgeRuns.DrainTellsEveryoneInTime | usbipdevirt/src/main.rs:111-118 | once the reader has stopped, a call has been sent exactly one result if it inserted its sender before the drain and none if after, and a waiting call can return if and only if it is of the first kind |
| BridgeRuns.TooLateWaitsForEver | usbipdevirt/src/main.rs:73-81 | no continuation of the run ever wakes a call that inserted its sender after the drain |
| BridgeRuns.OutstandingIsBounded | usbip/src/client.rs:257-278 | until the drain, shared `pending` maps injectively into the threads that are inside `submit`, so it is no larger than their number |
| BridgeLocks.NoLockCycle | usbipdevirt/src/main.rs:60-118 | in no state that acquisitions and releases of the three mutexes lead to is there a cycle of actors each wanting a mutex the next one owns |
| BridgeLocks.OwnersGoOn | usbip/src/client.rs:257-300 | whoever owns a mutex can go on, or wants one whose owner can |
| BridgeLocks.BridgeIsLockRun | usbipdevirt/src/main.rs:60-118 | every schedule of the bridge is a run of single acquisitions and releases of its mutexes, nested as in the code |
| BridgeRuns.DrainIsBounded | usbipdevirt/src/main.rs:111-118 | the drain ends: from any moment of it on it makes at most as many sends as the map has entries, whatever else happens |
| BridgeRuns.LockHoldersProgress | usbipdevirt/src/main.rs:60-118 | whoever holds the writer mutex can take a step, or waits for the map's mutex which the draining reader holds, and the draining reader can always take a step |
| BridgeRuns.OutgoingStream | usbipdevirt/src/main.rs:60-74 | the bytes of all threads begin with the posted commands, whole and not interleaved, in strictly increasing order of number, each with its own call's fields and data, if and only if the posted commands announce their lengths truthfully; nothing else is decoded if the piece that follows does too |
| BridgeRuns.LoopsAreFramed | usbipdevirt/src/main.rs:193-242 | every command of an endpoint loop announces its length truthfully |
| BridgeLoops.LoopBeginsExactly | usbipdevirt/src/main.rs:196-230 | what a loop can call with, field by field: an IN loop for one packet of the endpoint's size, an OUT loop with any packet up to that size under its own length, on the loop's endpoint, without flags, setup or interval |
| BridgeLoops.AfterResume | usbipdevirt/src/main.rs:190-246 | an OUT loop goes round again if and only if its call returned a response with status 0, an IN loop if and only if, besides, the gadget took the data, which are then the next payload; a caller always goes on |
| BridgeLoops.GoodAnswerGoesRound | usbipdevirt/src/main.rs:190-246 | from a good answer in its channel every loop can go on to its next call, of any packet up to its size, and an IN loop has then written the data to the gadget |
| BridgeLoops.LoopsStopForCause | usbipdevirt/src/main.rs:190-246 | in every schedule a loop has stopped only if a call of it failed or got another status than 0, or the gadget refused an IN loop's data; and one that is ready to go on has had no such call |
| BridgeRuns.OutEndpointFifo | usbipdevirt/src/main.rs:219-242 | the commands an OUT loop has on the wire are the packets it read from the gadget, in order, with at most the last one missing, and none follows a command that was not answered with status 0 |
| BridgeRuns.InEndpointFifo | usbipdevirt/src/main.rs:193-213 | the payloads an IN loop has written to the gadget are, in order, the data of the good answers decoded for its own submissions, of which at most one is outstanding |
| BridgeDelivery.PayloadsAreServed | usbipdevirt/src/main.rs:193-213 | with a conforming server the k-th payload is the data of the server's own reply, with status 0, to the loop's k-th submission |
| BridgeDelivery.OutCommandsAreServed | usbipdevirt/src/main.rs:219-242 | and before an OUT loop reads its next packet the server has answered the command before with status 0 |
| BridgeLedger.ReaderAlignment | usbip/src/client.rs:257-379 | with a conforming server, every submission received whole and not settled is in shared `pending` with the direction it was sent with, and between responses the unread bytes start at a response |
| BridgeLedger.ReaderNeverMisreads | usbip/src/client.rs:316-379 | with a conforming server, only a failing read stops the reader: it meets no unknown command and no unknown sequence number |
| BridgeLedger.LedgerIsExact | usbip/src/client.rs:236-373 | with a conforming server, the submissions registered are at all times partitioned into pending, answered, cancelled by a RET_UNLINK with -ECONNRESET, and write-failed |
| BridgeLedger.UnlinksAreExact | usbip/src/client.rs:287-373 | `unlinks` holds exactly the outstanding unlink commands with their targets, is disjoint from `pending`, and all keys are below the counter |
| BridgeLedger.LostIsNeverDelivered | usbipdevirt/src/main.rs:88-98 | a call whose response was dropped never returns it |
| BridgeFindings.AnswerCanBeLost | usbipdevirt/src/main.rs:63-98 | a schedule with a conforming server after which the only call waits, its submission is settled and nothing is left to wake it but the end of the reader |
| BridgeFindings.CallerWaitsForEver | usbipdevirt/src/main.rs:73-118 | a schedule with a conforming server after which the only call has inserted its sender after the drain, and no continuation whatever lets it return |
| BridgeClient.WriterTurn | usbip/src/client.rs:245-302 | an uninterrupted turn under the writer mutex leaves counter, maps and stream, and ends for its caller, as the writer half's send does, on any transport |
| BridgeClient.ReaderTurn | usbip/src/client.rs:316-379 | the reader's steps on the bytes that have arrived give the response, the maps and the rest that the reader half's receive gives, or stop when it fails |
| Descriptors.ParseEndpointDescriptors | usbipdevirt/src/main.rs:124-155 | the loop ends, stays within its input and returns what the recursive walk returns |
| Descriptors.Walk | usbipdevirt/src/main.rs:128-152 | seven times the number of endpoints found is at most the number of bytes |
| Descriptors.WalkOfRecords | usbipdevirt/src/main.rs:128-152 | on any serialised list of records, with anything the walk cannot take behind it, it finds exactly the endpoint records of length at least 7, in order |
| Descriptors.TakeApart | usbipdevirt/src/main.rs:128-152 | every input is such a list and remainder, so that describes the walk on all inputs |
| Descriptors.EndpointRoundTrip | usbipdevirt/src/main.rs:135-148 | an endpoint descriptor is read back field by field from its record, with the audio fields zero when the record is too short for them |
| Descriptors.EndpointLayout | usbipdevirt/src/main.rs:135-148 | which records are endpoint descriptors, and where their fields are, byte by byte |
| Descriptors.WalkOfPrefix | usbipdevirt/src/main.rs:128-152 | a truncated descriptor gives a prefix of the full result |
| Descriptors.WalkOfConcat | usbipdevirt/src/main.rs:128-152 | behind a descriptor that is consumed whole, parsing starts afresh: the results are concatenated |
| Gadget.IoRoundTrip | rawgadget/src/device.rs:259-303 | header, data and padding are read by the driver as exactly that data |
| Gadget.EpIoBuf.constructor | rawgadget/src/device.rs:260-279 | the word-rounded buffer holds header and data and wastes less than a word; it starts with the header, the rest is zero |
| Gadget.EpWrite | rawgadget/src/device.rs:181-186 | the driver is shown exactly the caller's bytes behind the eight header bytes (handle, no flags, length, low byte first), for every length below 2^32 |
| Gadget.EpRead | rawgadget/src/device.rs:192-200 | the driver is asked for the endpoint's handle and the buffer's length; the first min(transferred, length) bytes of the caller's buffer become the bytes the driver stored, and the others stay as they were |
| Gadget.Ep0Write | rawgadget/src/device.rs:131-148 | more than 512 bytes are refused before the driver is asked; otherwise it is shown exactly the caller's bytes |
| Gadget.Ep0Read | rawgadget/src/device.rs:153-163 | the driver is asked for the buffer's length but at most 512 bytes; the first of the caller's bytes become what the driver stored, as many as it transferred of that, and the others stay as they were |
| Monitor.SetupRoundTrip | usbipdevirt/src/main.rs:373-381 | the eight setup bytes and the request determine each other |
| Monitor.HandlingBySetup | usbipdevirt/src/main.rs:327-349 | how the setup bytes of any request decide which handler gets it, and which requests are for the configuration descriptor |
| Monitor.VerdictExplains | usbipdevirt/src/main.rs:307-504 | on every accepted record the monitor's state is what the record says: current request, latest configuration descriptor, number of replies, what was forwarded and read, progress of the configuration |
| Records.VerdictExplainsThreads | usbipdevirt/src/main.rs:350-355 | and of the threads: those in hand are those started last and not waited for; those started are, one for one, those waited for, those lost sight of and those in hand; some are lost sight of if and only if a configuration was brought up over threads in hand |
| Records.PrefixIsJudged | usbipdevirt/src/main.rs:307-370 | a record that is in order was in order at every moment, so that what follows holds all along a run |
| Records.OneReplyPerRequest | usbipdevirt/src/main.rs:307-370 | whenever the next event is asked for, a control request has had exactly one EP0 read, write or stall, and any other event none |
| Records.NeverTwoReplies | usbipdevirt/src/main.rs:307-370 | at no moment, in a run that ends in an error either, has a request had two |
| Records.AnswersAreRelayed | usbipdevirt/src/main.rs:383-405 | whenever the host is given data, they are exactly the bytes the remote device answered this request with, with success |
| Records.StallsAreRelayed | usbipdevirt/src/main.rs:383-462 | a request is stalled only after the remote device refused it |
| Records.RepliesAreOwed | usbipdevirt/src/main.rs:327-444 | and every reply is the one owed: SET_ADDRESS is acknowledged and not forwarded; OUT data are read before they are forwarded; any other request is stalled if and only if the remote device's one answer has another status than 0, and else given its data (IN) or acknowledged (OUT) |
| Records.ForwardedOnce | usbipdevirt/src/main.rs:383-462 | no request is forwarded twice |
| Records.FailedCallIsLast | usbipdevirt/src/main.rs:307-370 | the first call that fails is the last thing the program does |
| Records.CacheStepByStep | usbipdevirt/src/main.rs:350-396 | a reset or a disconnection forgets the cached descriptor, the successful answer to an IN request with code 6 and descriptor type 2 replaces it, and nothing else does either |
| Records.DataIsRelayed | usbipdevirt/src/main.rs:407-427 | the remote device is given the request's own setup bytes and length and, for an OUT request with data, exactly the bytes read from the host |
| Records.ConfiguredInOrder | usbipdevirt/src/main.rs:446-498 | every `configure` comes after the accepted SET_CONFIGURATION, the enabling of each endpoint of the latest cached descriptor since the last reset or disconnection, in order, and the bus power, and before any reply |
| Records.ConfiguredStepByStep | usbipdevirt/src/main.rs:446-492 | call by call: the answer with status 0, one enabled endpoint for each of the descriptor's, and byte 7 of the descriptor as the power, if it has one |
| Records.SpawnedInOrder | usbipdevirt/src/main.rs:463-504 | threads start after the acknowledgement, one for each endpoint, each with that endpoint's handle, number and packet size, IN or OUT by bit 7 of its address |
| Records.ResetJoinsThreadsInHand | usbipdevirt/src/main.rs:350-355 | between a reset or a disconnection and the next event exactly the threads in hand are waited for, in one go, and nothing else is done |
| Records.JoinsOnlyAfterReset | usbipdevirt/src/main.rs:350-355 | threads are waited for at no other time |
| Records.NobodyIsLostExactly | usbipdevirt/src/main.rs:352-501 | after a join every thread ever started has been waited for if and only if no configuration was brought up over threads still to be waited for |
| Scripts.CallIsDetermined | usbipdevirt/src/main.rs:307-504 | the order leaves the program one call at a time, whose result the outside settles |
| Scripts.StoppedRecordIsLongest | usbipdevirt/src/main.rs:307-504 | so the record of a run that has stopped is determined by its script: any other accepted record of that script is a prefix of it |
| Scripts.WriteEndsRunExactly | rawgadget/src/device.rs:131-148 | an EP0 reply with data lets the program go on if and only if the driver takes it and it is no longer than 512 bytes, and otherwise it is the last thing the program does |
| EventLoop.World.SpawnEpThreads | usbipdevirt/src/main.rs:173-250 | one loop for each endpoint and its handle, IN or OUT by the address bit, with the endpoint's number and packet size |
| EventLoop.Program.HandleControlIn | usbipdevirt/src/main.rs:383-405 | leaves the request settled by exactly two calls, the submission and then the answer's data or a stall, or ends in a failed call; the cache follows the latest configuration descriptor |
| EventLoop.Program.HandleControlOutWithData | usbipdevirt/src/main.rs:407-427 | the same, by reading the data, at most 512 bytes, and forwarding exactly those |
| EventLoop.Program.HandleControlOutNoData | usbipdevirt/src/main.rs:429-444 | the same, by the submission and then an acknowledgement if its status is 0 and a stall if not |
| EventLoop.Program.HandleSetConfiguration | usbipdevirt/src/main.rs:446-504 | the same, or ends for want of a cached descriptor; on success the threads in hand are the new ones and those in hand before are lost sight of |
| EventLoop.Program.EnableEndpoints | usbipdevirt/src/main.rs:474-484 | every endpoint is enabled in order and its handle kept, or the program ends at the first that fails |
| EventLoop.Program.Activate | usbipdevirt/src/main.rs:471-501 | brings up the described configuration in the required order, or ends in a failed call with no thread started |
| EventLoop.Program.HandleControl | usbipdevirt/src/main.rs:313-349 | every request goes to the handler for its kind, SET_ADDRESS first, and is settled by it unless the program ends |
| EventLoop.Program.JoinThreads | usbipdevirt/src/main.rs:350-355 | exactly the threads in hand are waited for, as is due after a reset or a disconnection |
| EventLoop.Program.Round | usbipdevirt/src/main.rs:307-370 | one round leaves the event dealt with, a reset or a disconnection by exactly one join of the threads in hand and an empty cache, any event but these and control requests by nothing, and cache and threads in agreement with the record, or the program stops |
| EventLoop.Program.Run | usbipdevirt/src/main.rs:303-370 | the run stops only at a failed call or for want of a descriptor; its record is the one that the outside's answers determine; every reply in it is the one owed; and whenever an event is asked for the last one has been replied to once, if it was a control request, its threads waited for, if it was a reset or a disconnection, and nothing done about it otherwise |
| EventLoop.OutDataIsFramedExactly | usbipdevirt/src/main.rs:407-427 | the server can decode a forwarded OUT request with data, whatever follows it, if and only if `wLength` is at most 512 and the driver transferred that much |
| EventLoop.OtherRequestsAreFramed | usbipdevirt/src/main.rs:383-504 | everything else the loop forwards, at any point of a run, announces its length truthfully |
| Findings.OutDataIsForwarded | usbipdevirt/src/main.rs:407-427 | the loop forwards every OUT request with data, whatever is transferred of it, and thereby a truthful length exactly when all of at most 512 bytes was transferred |
| Findings.MisframedCommandIsForwarded | usbipdevirt/src/main.rs:407-427 | for a request of 513 bytes the loop forwards a command that the server cannot decode |
| Findings.FirstThreadsAreLost | usbipdevirt/src/main.rs:446-504 | a record with two accepted SET_CONFIGURATIONs and a reset, after which the thread of the first runs on |
| Findings.SetConfigurationTwice | usbipdevirt/src/main.rs:303-370 | the record of the loop on that script does end in that loss |
| Findings.WriteMoreThanFits | usbipdevirt/src/main.rs:303-370 | the record of the loop on such a request does contain the misframed command |
| Findings.LongAnswerEndsRun | usbipdevirt/src/main.rs:392-399 | for every control IN request, a successful answer of the remote device ends the program if and only if it is longer than 512 bytes, however ready the driver is |
| Findings.AnswerWithMoreThanFits | usbipdevirt/src/main.rs:303-370 | the whole record of the loop on a request answered with 513 bytes is that one request |
| DeviceList.ReadOne | usbip/src/client.rs:48-55 | one device and its interfaces are read as specified, or the stream ends |
| DeviceList.ListDevices | usbip/src/client.rs:13-59 | sends exactly the request and returns what the specification gives for the bytes that arrive, in every error case too |
| DeviceList.RequestLayout | usbip/src/client.rs:18-22 | the eight bytes of the request |
| DeviceList.ErrorReplies | usbip/src/client.rs:26-45 | another code than 0x0005 is reported, whatever the status; then another status than 0; else there are as many devices as announced, or the stream ended |
| DeviceList.DeviceLayout | usbip/src/wire.rs:44-61 | where the fields of a device are, and that its strings end at the first NUL |
| DeviceList.CStringOf | usbip/src/protocol.rs:79-82 | a NUL-free string is recovered from its field, whatever follows the NUL, also when it fills the field |
| DeviceList.DevicesRead | usbip/src/client.rs:47-56 | any list of devices is read back from its bytes, which are 312 + 4 times the interfaces for each |
| DeviceList.DeviceListRoundTrip | usbip/src/client.rs:26-58 | the reply for any well-formed list is read back as that list, leaving exactly what followed it |

## Left out

- Connecting, `set_nodelay`, `flush`, `shutdown`, argument parsing and logging: plumbing; streams are byte sequences.
- `import_device` and the choice of the first device: one header and one record more, read as the device list reads them.
- The ioctl calls themselves, opening, initialising and running the gadget, `ep_disable`, halting and wedging endpoints, `eps_info`, `map_speed`: foreign calls and tables; what the driver returns is a parameter.
- UTF-8 conversion of paths and bus ids: strings are bytes, cut at the first NUL.
- Isochronous transfers: the code never encodes or decodes packet descriptors.
- Poisoned mutexes, panics and allocation: among them the overflow panic of `next_seqnum` in debug builds, the panic when an endpoint write is 2^32 bytes or longer, and the buffer reserved for a payload before it arrives.
- Liveness that the code does not have: a `submit` whose response is dropped, or that comes after the drain, does not return, and joins wait as long as their threads do.
- BridgeSystem.DoThread: the bridge's methods are steps on one state value and not methods of a class, because calls interleave; `BridgeClient` ties the steps to the methods of `Client`.
- Gadget.EpWrite: excludes data of 2^32 bytes or more, on which the code panics; `Gadget.EpRead` excludes buffers of that size.
- BridgeRuns.NumbersAreUnique: holds below 2^32 - 1 allocations, beyond which the code reuses numbers; `Connection` models the wrap-around.
- BridgeConforming.RunKeepsProtocol: in conforming runs callers announce the length of their OUT data truthfully, which the endpoint loops do (`LoopsAreFramed`) and `EventLoop` says when control requests do.
- EventLoop.Program.Run: runs are finite because the world's script is; an endless run is covered by its finite parts.
