# usbfwd, modelled and proved

usbfwd exports a machine's own USB controllers over USB/IP. This project models the exporter's
URB pump as a concurrent state machine together with the codecs around it, and proves what the
program is for: every submit gets at most one answer, cancelled submits stay silent, one session
never answers for another, one device has one importer, a button chord cannot toggle a device
twice in one press, and what is written down can be read back.

`dafny verify dfyconfig.toml` checks everything.

## How it is laid out

| file | what it is |
|---|---|
| `Types`, `Text`, `Wire`, `Utf8` | machine integers, white space and decimals, big-endian cursors, what UTF-8 is |
| `Pdu`, `Framing`, `Devlist` | USB/IP 1.1.1 headers, command and reply streams, the device list |
| `Usbfs` | what a request becomes in memory, and the table of URBs in flight |
| `Prefetch`, `Prefetcher` | one prefetched endpoint and its history; all of them behind their lock |
| `Outbox` | handing a reply to the writer |
| `Pump` | reader, reaper, wind-down and next session as steps of one state machine |
| `PumpInvariant`, `PumpSafety`, `PumpResults` | the invariant, that every step keeps it, and what follows over whole runs |
| `PumpAnswers`, `PumpOrigins` | what each step makes the client's answer, and which of its commands that answer comes from |
| `PumpWaiters`, `PumpLeftovers` | which waiting clients can still be answered; what one session's leftover URBs do to the next, and that closing the device frees all |
| `PumpWitnesses` | runs from a newly opened device that reach the states in which a promise fails |
| `Chord`, `Screening`, `ChordText` | the hold detector against its declarative meaning; blanking completions; chords as text |
| `Toggle`, `Lease`, `LeaseResults` | lease set, suspended set and watcher; their protocol; what it promises |
| `Descriptors` | the USB descriptor walk |
| `Toml`, `TomlPrint`, `TomlRoundTrip`, `TomlRefusals` | the configuration parser, printing a document back, and what it refuses |

Each call made under a lock (`take`, `deliver`, `unlink`, `submit`, `reap`, `cancel_pending`,
`acquire`, `suspend`, ...) is one atomic step. The classes are the code behind those steps and are
proved to do exactly what the step functions say; the state machines then interleave the steps
freely. The kernel, sockets, clocks and hidraw are parameters of the steps and answer as they like,
except that a reap hands back a URB that was submitted and not yet reaped. A "run" is any sequence
of enabled steps; the pump's runs go through any number of sessions on one device.

As the source documents (crates/usbfwd-server/src/prefetch.rs:30-34), client seqnums are fresh
within a session and below 0x80000000, and a session issues fewer than 2^31 internal URBs. A
disabled prefetcher is one with no endpoints.

## What turned out not to hold, and exactly when it does

- **Cancellation.** An unlink answered `-ECONNRESET` can name a submit that has been answered: if
  the previous session's drain was cut short, a leftover client URB keeps its seqnum busy, a new
  submit under that seqnum is answered `-EBUSY`, and unlinking it then "cancels" the leftover.
  `CancellationExactly`: a session keeps the promise in all its runs if and only if the table it
  starts on holds no client URB. `LeftoverReached` shows that such a URB can be left on every
  device, and `CancellationBreaks` plays the two sessions through from a newly opened one.
- **No oscillation.** After SIGHUP the watcher forgets its detectors only when it next lists the
  suspended devices. A device suspended again in between keeps its old, armed detector, and the
  chord that suspended it can resume it without being released. `BouncesExactly`: a suspension can
  be undone this way if and only if the watcher holds a tapped, armed detector for the device at
  that moment. `HangupRace` reaches such a state; without SIGHUP it never happens.
- **Descriptor walk.** `parse` indexes out of bounds if and only if the walk comes to a configuration
  header whose `wTotalLength` is below 6 (`PanicsExactly`); `ZeroTotalPanics` is such a blob.
- **A client told to wait can wait for ever.** `take` re-arms an idle endpoint so that this should not
  happen, but the re-arm can be refused. `WaiterAnswerable`: in every reachable state some run of
  the session answers a waiting client if and only if its endpoint has a URB in flight and the
  reaper has not finished. `TakeKeepsItsPromise` says when `take` leaves such a state behind, by the
  guards of the re-arm's submit, and `ForsakenReached` plays a refused one through on every device.
- **A session can block the next one's prefetching.** Every session counts its internal URBs from the
  same seqnum, so a leftover under it makes every arm fail. `PrefetchesExactly`: on whatever table a
  session starts, some run of it submits an internal URB without a leftover being reaped first if
  and only if no leftover has that seqnum and a URB can be built for one of its endpoints.
  `BlockedUntilReaped` says it of every reachable state, and `BlockedReached` reaches a blocked start.

## Model

| member | source | states |
|---|---|---|
| `Wire.TextRoundTrip` | crates/usbip-proto/src/wire.rs:77-84 | a string survives a field of any width if and only if it is empty or fits with room for a NUL, holds no NUL and is UTF-8 |
| `Utf8.Utf8Exactly` | crates/usbip-proto/src/wire.rs:77-84 | text is accepted as UTF-8 if and only if it is the encoding of some sequence of Unicode scalar values |
| `Wire.Reader.Text` | crates/usbip-proto/src/wire.rs:77-84 | the cursor finds the first NUL, checks the text before it, and moves past the whole field |
| `Wire.Writer.Text` | crates/usbip-proto/src/wire.rs:147-154 | the field is the string cut to leave room for a NUL, if the field has any room, then zeros up to its width |
| `Pdu.HeaderRoundTrip` | crates/usbip-proto/src/pdu.rs:204-293 | decoding inverts encoding, with anything behind the 48 bytes, exactly on headers whose command names their body |
| `Pdu.HeaderLayout` | crates/usbip-proto/src/pdu.rs:204-247 | every field of the 48 bytes by its offset, most significant byte first and two's complement, the padding zero, and the four command numbers |
| `Pdu.UnknownCommandRefused` | crates/usbip-proto/src/pdu.rs:249-293 | a first word other than 1 to 4 is refused with that number |
| `Pdu.Decode` | crates/usbip-proto/src/pdu.rs:249-293 | the cursor-driven decoder reads the same header, or fails with the same error, as the field offsets say |
| `Framing.CommandRoundTrip` | crates/usbip-proto/src/io.rs:120-171 | one command is read back whole, and not a byte of the next, if and only if it is within the limits and carries the trailer it announces |
| `Framing.CommandRefused` | crates/usbip-proto/src/io.rs:120-171 | what follows each header: its trailer, the error that names the limit it breaks, the end of the stream, or the refusal of a reply |
| `Framing.StreamRoundTrip` | crates/usbip-proto/src/io.rs:120-171 | repeated reads on any concatenation of acceptable commands return that list and stop at its last byte |
| `Framing.ReadCommand` | crates/usbip-proto/src/io.rs:120-171 | the stream reader agrees with the byte-string reading on every input, errors included, and consumes exactly that much |
| `Framing.ReplyStreamRoundTrip` | crates/usbip-proto/src/io.rs:185-239 | any list of in-frame replies is recovered, reply by reply, by a client that knows each submit's direction |
| `Framing.ReplyLayout` | crates/usbip-proto/src/io.rs:185-200 | the bytes of a reply: command number, seqnum, status, length and data, and zeros everywhere else |
| `Framing.OutOfFrameIsMisread` | crates/usbip-proto/src/pdu.rs:127-133 | a reply whose data is not what its direction implies is never read back as what was sent |
| `Framing.ReadRetSubmit` | crates/usbip-proto/src/io.rs:204-239 | it returns a reply only if the byte-string reading finds that RET_SUBMIT, and leaves exactly what follows it |
| `Devlist.OpHeaderIsBigEndian` | crates/usbip-proto/src/op.rs:30-52 | an operation header is version, code and status, most significant byte first |
| `Devlist.ReplyHeaderDecides` | crates/usbip-proto/src/io.rs:31-75 | byte by byte, a reply header is the go-ahead if and only if version, code and status are right, and the first of them that is not is named |
| `Devlist.ReadersAgree` | crates/usbip-proto/src/io.rs:80-104 | on every body whatever, the streaming reader and the slice decoder return the same list or both refuse |
| `Devlist.ListRoundTrip` | crates/usbip-proto/src/op.rs:111-137 | the list decoder inverts the encoder if and only if there are at most 1024 devices and each can be said by its record |
| `Devlist.StreamedRoundTrip` | crates/usbip-proto/src/io.rs:94-103 | devices of mixed interface counts are read back and what follows them is left untouched |
| `Devlist.DeviceRoundTrip` | crates/usbip-proto/src/device.rs:87-146 | a record reads back as itself if and only if its strings fit and it has as many interfaces as it says |
| `Devlist.ImportRoundTrip` | crates/usbip-proto/src/op.rs:101-103 | without the interface array a record reads back if and only if its strings fit and it has no interfaces |
| `Devlist.DevlistReplyRoundTrip` | crates/usbip-proto/src/io.rs:80-104 | a whole list reply, header included, is read back and what follows it left, exactly for lists of at most 1024 devices that their records can say |
| `Devlist.ImportReplyRoundTrip` | crates/usbip-proto/src/io.rs:108-113 | a whole import reply is read back exactly when its record can say the device; a refusal is read as the peer's refusal and never as a device |
| `Devlist.Encode` | crates/usbip-proto/src/device.rs:87-114 | the writer appends the 312-byte record and, if asked, as many 4-byte interfaces as announced, missing ones as zeros |
| `Devlist.EncodeList` | crates/usbip-proto/src/op.rs:111-119 | header, 32-bit count and every device in order |
| `Devlist.Decode` | crates/usbip-proto/src/device.rs:116-146 | the cursor-driven decoder gives the record that stands at the cursor, or the error of the first field cut off |
| `Devlist.DecodeList` | crates/usbip-proto/src/op.rs:121-137 | the counted loop returns the devices of the body in order, or the first error |
| `Devlist.ReadReplyHeader` | crates/usbip-proto/src/io.rs:31-75 | a reply header is accepted only with this version, the code asked for and a zero status, checked in that order, and exactly eight bytes are consumed |
| `Devlist.ReadDevlistReply` | crates/usbip-proto/src/io.rs:80-104 | header, count and devices are read in turn, with the first error met, and the stream is left right behind them |
| `Devlist.ReadImportReply` | crates/usbip-proto/src/io.rs:108-113 | header and record are read in turn, with the first error met |
| `Devlist.EncodeImportReply` | crates/usbip-proto/src/op.rs:89-99 | an accepting header and the record without interfaces, or a refusing header alone |
| `Devlist.ReadList` | crates/usbip-proto/src/io.rs:82-104 | the loop behind the header returns the devices, and the stream is left right behind them |
| `Usbfs.BufferEndToEnd` | crates/usb-backend/src/usbfs.rs:533-785 | an accepted command's URB has its seqnum, direction, endpoint address and type, its setup packet, every OUT byte and both lengths; what is reaped from it is the kernel's status and, for IN, exactly the bytes transferred, cut to the length the command asked for, for OUT the count |
| `Usbfs.PreparedExactly` | crates/usb-backend/src/usbfs.rs:337-578 | for every accepted submit, by the command's own fields: unknown endpoint -32, isochronous -95, a state-changing request intercepted with its operands, too long -22, and otherwise a URB for that command |
| `Usbfs.SubmitDecides` | crates/usb-backend/src/usbfs.rs:558-604 | a built URB is refused as busy, taken, fatal or refused with the kernel's error; an intercepted request succeeds unless the device is gone |
| `Usbfs.ReapCompletes` | crates/usb-backend/src/usbfs.rs:719-785 | whatever the kernel reports, the completion holds what was transferred as far as the client asked for it and the buffer goes |
| `Usbfs.InternalUrbIsNeverHandled` | crates/usb-backend/src/usbfs.rs:791-808 | a request with an all-zero setup packet is never carried out as an ioctl |
| `Usbfs.SpecialIsClassified` | crates/usb-backend/src/usbfs.rs:791-808 | each of the four state-changing requests is intercepted, with its own operands, whatever its unused fields hold |
| `Usbfs.ClassifiedIsSpecial` | crates/usb-backend/src/usbfs.rs:791-808 | an intercepted setup packet is one of those requests, byte for byte |
| `Usbfs.SubmitMirrors` | crates/usb-backend/src/usbfs.rs:558-604 | a submit, accepted or refused, leaves table, live allocations and kernel in one-to-one agreement, with every allocation live or freed once |
| `Usbfs.UnlinkMirrors` | crates/usb-backend/src/usbfs.rs:607-621 | an unlink keeps that agreement whether or not the discard lands |
| `Usbfs.ReapMirrors` | crates/usb-backend/src/usbfs.rs:719-750 | a reap keeps it too, and a successful one removes exactly one entry |
| `Usbfs.UsbfsDevice.Submit` | crates/usb-backend/src/usbfs.rs:520-605 | the new table and the answer are those of the submit step, and the agreement holds |
| `Usbfs.UsbfsDevice.Unlink` | crates/usb-backend/src/usbfs.rs:607-621 | marked whether or not the discard lands; the answer says whether it did |
| `Usbfs.UsbfsDevice.Reap` | crates/usb-backend/src/usbfs.rs:719-785 | the entry and its allocation go, and the completion says whether it had been unlinked |
| `Usbfs.UsbfsDevice.CancelPending` | crates/usb-backend/src/usbfs.rs:679-717 | every entry is marked and some reaps follow; however early they stop, every entry left is an old one and marked, nothing is allocated and no free is taken back |
| `Usbfs.UsbfsDevice.Close` | crates/usb-backend/src/usbfs.rs:812-829 | nothing is live or with the kernel after the close, no address has been handed out, and every allocation ever made has been freed exactly once; the table is that of cancel, drain and sweep |
| `Usbfs.ClosedMeansFreedOnce` | crates/usb-backend/src/usbfs.rs:679-829 | from any table in agreement with the kernel, whatever the drain reaps, marking, draining, closing and sweeping free each allocation made so far once and no other address |
| `Prefetch.TakeConsistent` | crates/usbfwd-server/src/prefetch.rs:166-195 | after a client submit the buffer still is the youngest reports not handed out, and what was handed out is an order-preserving subsequence of what was delivered |
| `Prefetch.DeliverConsistent` | crates/usbfwd-server/src/prefetch.rs:197-257 | after a completion the same holds, the error count is the number of failures since the last good report, and a waiting client means an empty buffer |
| `Prefetch.ArmConsistent` | crates/usbfwd-server/src/prefetch.rs:293-335 | an attempt to arm keeps all of it, and an enabled endpoint without a URB has had a failure since its last good report |
| `Prefetch.ClientGetsHandedReport` | crates/usbfwd-server/src/prefetch.rs:177-254 | a client gets the very report recorded as handed out, cut to its buffer, and a waiter is answered by the next completion under its own seqnum |
| `Prefetcher.Prefetcher.constructor` | crates/usbfwd-server/src/prefetch.rs:102-138 | one idle, enabled endpoint per interrupt IN endpoint, or none at all when disabled |
| `Prefetcher.Prefetcher.ArmEndpoint` | crates/usbfwd-server/src/prefetch.rs:293-335 | prefetcher and table end as the arm step says |
| `Prefetcher.InternalUrbIsOnePacket` | crates/usbfwd-server/src/prefetch.rs:293-335 | the URB submitted for an interrupt IN endpoint is on that endpoint, for one packet of it, or refused for its size |
| `Prefetcher.NextSeqnumCounts` | crates/usbfwd-server/src/prefetch.rs:316 | internal seqnums count up by one and wrap into their own range |
| `Prefetcher.Prefetcher.ArmAll` | crates/usbfwd-server/src/prefetch.rs:151-161 | every endpoint gets exactly one attempt, in whatever order the map is walked; prefetcher and table are the arm step folded over that order, and what is in flight is in the table |
| `Prefetcher.Prefetcher.Take` | crates/usbfwd-server/src/prefetch.rs:166-195 | prefetcher, table and answer are those of the take step, re-arm included |
| `Prefetcher.Prefetcher.Deliver` | crates/usbfwd-server/src/prefetch.rs:197-257 | the endpoint that had this URB in flight is found, or there is none and nothing changes; otherwise the deliver step |
| `Prefetcher.Prefetcher.Unlink` | crates/usbfwd-server/src/prefetch.rs:261-273 | true if and only if some endpoint had this seqnum waiting, and then that waiter alone is gone |
| `Prefetcher.Prefetcher.Shutdown` | crates/usbfwd-server/src/prefetch.rs:278-291 | every endpoint is disabled and empty, and exactly the URBs that were in flight are marked in the table |
| `Outbox.Post` | crates/usbfwd-server/src/session.rs:442-456 | a blocked post returns no later than the first attempt that sees the stop flag, and reports whether that attempt went through |
| `Pump.TakeStepIsTheCall` | crates/usbfwd-server/src/session.rs:182-207 | the pump's take step changes prefetcher and table exactly as the locked call does, and the reader acts on what that call returns |
| `Pump.DeliverStepIsTheCall` | crates/usbfwd-server/src/session.rs:303-322 | the same for deliver and the reaper |
| `Pump.ArmStepsAreTheCall` | crates/usbfwd-server/src/prefetch.rs:151-161 | a session's arm steps, in any order, form a run that ends as that call does, and the threads can start then |
| `PumpSafety.StepKeeps` | crates/usbfwd-server/src/session.rs:136-361 | every step of reader, reaper, wind-down or next session keeps the pump's invariant |
| `PumpSafety.PlacesMove` | crates/usbfwd-server/src/session.rs:161-258 | a submit appears only by being read and changes place only along the listed edges; Cancelled, Superseded, Dropped and Replied are reached by exactly the steps that mean them |
| `PumpSafety.FinalStays` | crates/usbfwd-server/src/session.rs:161-258 | what became of a submit never changes again in its session |
| `PumpSafety.Conservation` | crates/usbfwd-server/src/session.rs:161-360 | in every run each submit its client sent is in exactly one place, every other seqnum in none, and no seqnum has two RET_SUBMITs |
| `PumpResults.Cancellation` | crates/usbfwd-server/src/session.rs:239-258 | a submit whose unlink caught it, as a waiter or in the table, whether or not the discard landed, has no RET_SUBMIT then or ever after, nor one in either thread's hand |
| `PumpResults.CancellationExactly` | crates/usbfwd-server/src/session.rs:245-254 | every run of a session keeps "-ECONNRESET means no RET_SUBMIT" if and only if the session starts on a table without client URBs |
| `PumpResults.AnsweredThenCancelled` | crates/usb-backend/src/usbfs.rs:559-563 | on any table with a leftover client URB, a run in which its seqnum is answered and then reported cancelled |
| `PumpResults.NothingFound` | crates/usb-backend/src/usbfs.rs:611-613 | an unlink that finds nothing leaves a submit that is answered, in the reaper's hand, or settled before |
| `PumpAnswers.ReaderGoesOn` | crates/usbfwd-server/src/session.rs:136-258 | what the reader does after each of its steps: the request a submit becomes, whether it goes to the prefetcher or the device, and the reply due, field by field; no other step touches the reader |
| `PumpAnswers.ReaperGoesOn` | crates/usbfwd-server/src/session.rs:260-361 | the same for the reaper: what it holds after a reap, what a waiting client gets from a delivery, and when it ends |
| `PumpAnswers.TableMoves` | crates/usbfwd-server/src/session.rs:117-258 | which call each step makes on the device; the shutdown marks just the URBs in flight |
| `PumpAnswers.RecordsMove` | crates/usbfwd-server/src/session.rs:241-256 | the log grows by the reply that is sent and by nothing else, and an unlink is recorded with what it found |
| `PumpAnswers.StopRaised` | crates/usbfwd-server/src/session.rs:117-430 | exactly which steps raise the stop flag, and that none lowers it |
| `PumpAnswers.ShutdownEmpties` | crates/usbfwd-server/src/prefetch.rs:278-291 | after the shutdown no endpoint buffers, waits or has anything in flight, and whoever waited is let go of |
| `PumpAnswers.EveryReplyWasDue` | crates/usbfwd-server/src/session.rs:136-361 | in every run of a session each reply sent or in hand was made due by a step of it, with the contents that step gives it |
| `PumpAnswers.DueOneWay` | crates/usbfwd-server/src/session.rs:136-361 | and those contents are determined |
| `PumpAnswers.UnlinkAnsweredExactly` | crates/usbfwd-server/src/session.rs:241-256 | in every run each RET_UNLINK says -ECONNRESET if its unlink dropped a waiter or its discard landed, and 0 otherwise |
| `PumpAnswers.UnlinkStepIsTheCall` | crates/usb-backend/src/usbfs.rs:607-621 | the reader's answer is the one the device's `unlink` gave |
| `PumpOrigins.AnsweredFromItsOwnUrb` | crates/usbfwd-server/src/session.rs:160-352 | in every run of a session a client's completion was made by the kernel in a URB built for the very command sent under that seqnum, and a waiting client waits for as much as its own command asked for |
| `PumpResults.Isolation` | crates/usbfwd-server/src/session.rs:114-130 | when a session is over every entry left is marked, and no state of the next session holds or reports a completion of one of them |
| `PumpResults.EndpointsTrueToHistory` | crates/usbfwd-server/src/prefetch.rs:166-335 | in every reachable state each armed endpoint agrees with its history, its URB is in the table or in the reaper's hand and nobody else's, and past the shutdown it is disabled |
| `PumpResults.TableMirrorsKernel` | crates/usb-backend/src/usbfs.rs:558-829 | in every reachable state table, allocations and kernel agree and nothing has been freed twice |
| `PumpLeftovers.FreedExactlyOnce` | crates/usb-backend/src/usbfs.rs:558-829 | in every run over any number of sessions, closed at any point, each allocation made up to any moment of it has been freed exactly once, and no other address |
| `PumpResults.RepliesStayInFrame` | crates/usbfwd-server/src/session.rs:306-352 | the bytes written in any run, prefetched, errored and blanked replies included, read back as exactly the replies posted |
| `PumpResults.BlankedNotDropped` | crates/usbfwd-server/src/session.rs:388-410 | a reply keeps its completion's seqnum and status, and its data unless the chord hid it, with a length to match |
| `PumpResults.NothingSubmittedAfterShutdown` | crates/usbfwd-server/src/prefetch.rs:278-291 | in every run after the shutdown nothing is allocated, no entry is new, and exactly as many entries go as URBs are reaped |
| `PumpResults.WindDownEnds` | crates/usbfwd-server/src/session.rs:117-130 | after the shutdown any run of the session has at most four steps per table entry and four more, a reaper's empty poll included; only the drain's own empty polls are left to its deadline |
| `PumpResults.WindDownNeverStuck` | crates/usbfwd-server/src/session.rs:117-130 | and until every entry left is marked, such a step can be taken |
| `PumpWaiters.DisabledForTheSession` | crates/usbfwd-server/src/prefetch.rs:229-236 | an endpoint given up on is given up on in every later state of the session: no URB in flight, every submit passed through |
| `PumpWaiters.GivenUpExactly` | crates/usbfwd-server/src/prefetch.rs:197-335 | in every run an armed endpoint of a running session has been given up on if and only if its last eight attempts failed with no good report between, or the device was gone; until then its error count is the failures since the last good report |
| `PumpWaiters.WaiterAnswerable` | crates/usbfwd-server/src/prefetch.rs:160-195 | in every reachable state some run of the session gives a waiting client its RET_SUBMIT if and only if its endpoint has a URB in flight and the reaper has not finished |
| `PumpWaiters.TakeKeepsItsPromise` | crates/usbfwd-server/src/prefetch.rs:163-194 | after `take` says to wait the client can be answered if and only if the reaper is there and a URB was in flight or the re-arm's submit passes its guards: it can be built, its seqnum is free, the kernel takes it |
| `PumpWitnesses.ForsakenReached` | crates/usbfwd-server/src/prefetch.rs:293-335 | on every device, with a first arm and a re-arm refused, a client is told to wait and no run ever answers it |
| `PumpWitnesses.LeftoverReached` | crates/usb-backend/src/usbfs.rs:679-717 | on every device and under every client seqnum a finished session can leave that URB in the table |
| `PumpWitnesses.CancellationBreaks` | crates/usbfwd-server/src/session.rs:245-254 | two sessions from a newly opened device, the second of which reports as cancelled a submit it has answered |
| `PumpLeftovers.BlockedUntilReaped` | crates/usbfwd-server/src/prefetch.rs:293-335 | if the next internal seqnum is in the table it is a marked leftover, and until that is reaped no run of the session submits an internal URB |
| `PumpLeftovers.PrefetchesExactly` | crates/usbfwd-server/src/prefetch.rs:102-335 | a session on any table left by another can submit an internal URB before a leftover is reaped if and only if the first internal seqnum is free and a URB can be built for some endpoint |
| `PumpWitnesses.BlockedReached` | crates/usbfwd-server/src/prefetch.rs:102-138 | a session can begin so, after one whose armed URB outlived its drain |
| `Chord.ReportRoundTrip` | crates/usbfwd-server/src/chord.rs:82-97 | a state report gives back the 64-bit word written into it, provided its own length covers the word |
| `Chord.ObservedExactly` | crates/usbfwd-server/src/chord.rs:82-115 | byte by byte: the chord is held if and only if every button of it is down, whatever else is; a state report with one up shows it released, and anything else shows nothing |
| `Chord.DetectorMeetsSpec` | crates/usbfwd-server/src/chord.rs:230-255 | over any reports and any clock the detector fires at a report if and only if it is the first held one at least `hold` after the start of a hold that follows a release, and swallows exactly the held ones |
| `Chord.ReleasedBetweenFirings` | crates/usbfwd-server/src/chord.rs:202-219 | between two firings of one detector the chord is seen released |
| `Chord.ForeignChangesNoVerdict` | crates/usbfwd-server/src/chord.rs:231-235 | deleting every report that is not a state report changes no other verdict |
| `Chord.Detector.FeedReport` | crates/usbfwd-server/src/chord.rs:230-255 | new state and verdict are those of one step on what the report shows |
| `Screening.ScreenCompletion` | crates/usbfwd-server/src/session.rs:399-410 | only good, non-empty completions reach the detector, and one with the chord down is blanked in place |
| `ChordText.ChordRoundTrip` | crates/usbfwd-server/src/chord.rs:52-190 | parsing `describe(mask)` with the program's own table gives the mask back if and only if it is not zero |
| `ChordText.DescribeRoundTrip` | crates/usbfwd-server/src/chord.rs:122-190 | the same for every table whose names are distinct, plain and no numbers; zero prints as a name nobody knows |
| `ChordText.WrittenAnyWay` | crates/usbfwd-server/src/chord.rs:122-133 | with either separator, any white space, empty pieces and any case, a chord is the union of what its tokens name, and without a token it is refused |
| `ChordText.HexToken` | crates/usbfwd-server/src/chord.rs:136-140 | a hexadecimal mask names the bits of its value if that fits 64 bits, and is refused otherwise |
| `ChordText.HexRefused` | crates/usbfwd-server/src/chord.rs:136-140 | behind `0x` anything but digits is refused, and so is nothing at all |
| `ChordText.BitToken` | crates/usbfwd-server/src/chord.rs:141-148 | a bit number in either spelling names that bit, and one of 64 or more is refused as what it is |
| `ChordText.FromStr` | crates/usbfwd-server/src/chord.rs:122-133 | the loop returns the union of the tokens' bits, or the error of the first token that has one |
| `ChordText.Describe` | crates/usbfwd-server/src/chord.rs:175-190 | the loop names the bits in ascending order, joined by plus signs |
| `Toggle.Registry.Acquire` | crates/usbfwd-server/src/registry.rs:21-30 | a lease is given if and only if the device was free, and it is busy afterwards |
| `Toggle.Registry.Release` | crates/usbfwd-server/src/registry.rs:44-48 | dropping a lease frees that device and no other |
| `Toggle.Toggle.Suspend` | crates/usbfwd-server/src/toggle.rs:72-74 | the device is withheld; the answer says whether that was new |
| `Toggle.Toggle.Resume` | crates/usbfwd-server/src/toggle.rs:77-79 | the device is on offer; the answer says whether it was withheld |
| `Toggle.Toggle.ResumeAll` | crates/usbfwd-server/src/toggle.rs:88-93 | nothing is withheld, and what was is returned |
| `Toggle.OfferedExactly` | crates/usbfwd-server/src/toggle.rs:123-130 | the gated list holds exactly the devices that exist and are not withheld |
| `Toggle.WatchedDevice.StepDevice` | crates/usbfwd-server/src/toggle.rs:218-277 | a new tap comes with a fresh detector, a lost tap is dropped, and a batch is fed until the chord fires |
| `Lease.StepKeeps` | crates/usbfwd-server/src/lib.rs:472-523 | every step of importers, reapers and watcher keeps the protocol's invariant |
| `LeaseResults.MutualExclusion` | crates/usbfwd-server/src/lib.rs:489-523 | in every run a device has at most one lease holder, the busy set is exactly the held devices, and a session past `open` finds its device withheld only if its own reaper withheld it |
| `LeaseResults.ConnectsToOffered` | crates/usbfwd-server/src/lib.rs:486-491 | a connection gets past the list check exactly for a device that exists and is not withheld |
| `LeaseResults.ImportGoesOn` | crates/usbfwd-server/src/lib.rs:489-523 | what each step makes of its own import: refused while the device is leased, given up with its lease dropped if the device is withheld or cannot be opened or run, and a chord that fired is not forgotten |
| `LeaseResults.WithheldExactly` | crates/usbfwd-server/src/toggle.rs:66-93 | in every run a device is withheld if and only if a chord withheld it and neither the watcher's chord nor SIGHUP has put it back since |
| `LeaseResults.NoOscillation` | crates/usbfwd-server/src/toggle.rs:150-191 | in every run the detector behind a chord-caused toggle has seen a release since the device's previous one, unless the device was suspended under an armed watcher |
| `LeaseResults.NoOscillationWithoutHangup` | crates/usbfwd-server/src/toggle.rs:150-191 | in every run without SIGHUP, without exception |
| `LeaseResults.BouncesExactly` | crates/usbfwd-server/src/toggle.rs:157-163 | after a suspension some run undoes it without a release if and only if the watcher still had a tapped, armed detector for the device |
| `LeaseResults.HangupRace` | crates/usbfwd-server/src/toggle.rs:157-163 | such a state is reachable: SIGHUP, a new session, and the chord again before the watcher's list |
| `Descriptors.PanicsExactly` | crates/usb-backend/src/descriptors.rs:184-216 | on any blob the walk stays in bounds unless it comes to a configuration header that declares fewer than six bytes, and then it does not |
| `Descriptors.ZeroTotalPanics` | crates/usb-backend/src/descriptors.rs:199-216 | behind any device descriptor a nine-byte configuration header declaring a total of zero makes the walk index out of bounds |
| `Descriptors.BlobRoundTrip` | crates/usb-backend/src/descriptors.rs:155-258 | a device descriptor and any configurations, with other descriptors interleaved at both levels, parse to the tree that was printed |
| `Descriptors.ConfigRoundTrip` | crates/usb-backend/src/descriptors.rs:213-258 | a configuration reads back whatever class descriptors stand between its interfaces and endpoints |
| `Descriptors.Parse` | crates/usb-backend/src/descriptors.rs:155-211 | the loop over the blob computes the recursive walk, panics included |
| `Descriptors.ParseConfiguration` | crates/usb-backend/src/descriptors.rs:213-258 | the loop over a configuration computes the recursive walk |
| `Descriptors.InterfaceNumbers` | crates/usb-backend/src/descriptors.rs:105-114 | strictly ascending, and exactly the interface numbers that occur |
| `Descriptors.PrimaryAltSettings` | crates/usb-backend/src/descriptors.rs:118-131 | one alternate setting per interface, in that order: its first zero one, else its first |
| `Toml.StripCommentScan` | crates/usbfwd-attach/src/toml.rs:220-246 | the flag-driven scan stops at the first hash outside strings as the shared scanner state sees them |
| `Toml.BracketsBalanced` | crates/usbfwd-attach/src/toml.rs:189-216 | the flag-driven scan counts brackets outside strings of the same scanner state |
| `Toml.SplitArray` | crates/usbfwd-attach/src/toml.rs:293-325 | the flag-driven scan splits at commas outside strings of the same scanner state |
| `Toml.UnescapeScan` | crates/usbfwd-attach/src/toml.rs:338-354 | the loop undoes the escapes one by one or refuses at the first unknown one |
| `Toml.ParseValueText` | crates/usbfwd-attach/src/toml.rs:248-291 | the value the text denotes, nested elements included, or the first problem |
| `Toml.Parse` | crates/usbfwd-attach/src/toml.rs:91-187 | the loop over lines, multi-line arrays included, returns the tables in file order or the first problem with its line |
| `TomlPrint.LiteralIsInert` | crates/usbfwd-attach/src/toml.rs:189-325 | whatever a string holds, no scanner notices anything inside its literal, and all three leave it in the same state |
| `TomlPrint.VerbatimParses` | crates/usbfwd-attach/src/toml.rs:327-336 | between single quotes everything stands for itself |
| `TomlPrint.VerbatimPasses` | crates/usbfwd-attach/src/toml.rs:189-325 | and no scanner reacts to anything there |
| `TomlPrint.InnerParses` | crates/usbfwd-attach/src/toml.rs:265-282 | splitting and parsing the inside of an array gives its elements for any contents, spacing and trailing comma |
| `TomlRoundTrip.GatherBroken` | crates/usbfwd-attach/src/toml.rs:165-177 | pulling in the lines of a broken array, comments and all, gives balanced text equal to a one-line printing |
| `TomlRoundTrip.RepeatedTableRefused` | crates/usbfwd-attach/src/toml.rs:126-149 | a `[name]` that has stood before, wherever, is refused with the number of its own line |
| `TomlRoundTrip.RepeatedKeyRefused` | crates/usbfwd-attach/src/toml.rs:150-161 | a key set twice in one table is refused with the number of its own line |
| `TomlRefusals.BadLineRefused` | crates/usbfwd-attach/src/toml.rs:107-161 | an unclosed header, a line without an equals sign and one without a key are refused with their own number, wherever they stand |
| `TomlRefusals.BadValueRefused` | crates/usbfwd-attach/src/toml.rs:150-187 | so is a value that cannot be read, and a missing one |
| `TomlRefusals.OpenArrayRefused` | crates/usbfwd-attach/src/toml.rs:165-177 | and an array whose brackets do not balance before the file ends |
| `TomlRefusals.IntExactly` | crates/usbfwd-attach/src/toml.rs:283-291 | signs and leading zeros are read as such, and a number is refused exactly when 64 bits cannot hold it |
| `TomlRefusals.NoValue` | crates/usbfwd-attach/src/toml.rs:283-291 | what is neither a word, an array, a string nor such a number is refused |
| `TomlRefusals.BadEscapeRefused` | crates/usbfwd-attach/src/toml.rs:338-354 | a backslash before anything but the five escapes, or before the closing quote, is refused |
| `TomlRefusals.ElementsAreStrings` | crates/usbfwd-attach/src/toml.rs:265-282 | the first element that is no string decides the error of its array |
| `TomlRoundTrip.DocRoundTrip` | crates/usbfwd-attach/src/toml.rs:91-187 | printing any document, with escapes or single quotes, in any layout and with either line end, and parsing it gives its tables, each table and entry with the line it was printed on |

## Left out

- Raw ioctls, pointers and struct layouts: the kernel is a set of submitted URBs that accepts, refuses, completes or discards.
- `claim_all`, `release_all`, driver rebinding, usbfs URB flags and quirks of `tweak_special_request` beyond its answer.
- Sockets, keepalive, thread spawning, timeouts and deadlines: the 250 ms drain may stop at any point, and `session::run` failing before its reader starts is not a run of the pump.
- The reader and reaper loops appear as the steps they are made of, not as loops: their order within a thread is the order of the pump's thread states.
- Statistics and log lines of a session. The stop flag is there, but a thread may also stop wherever the code could see it, and a reaper that has just been told to stop may still find a completion.
- A client that breaks the documented rules (reused seqnums, seqnums in the internal range), and wrap-around of the internal counter after 2^31 URBs.
- Isochronous transfers beyond their framing and rejection.
- `accept_loop`'s session counter and drain, `handle`'s dispatch, and the `OP_REQ_*` half of the handshake.
- hidraw access, sysfs enumeration, nagging and preflight of the watcher: it is fed arbitrary report lists. The order in which it visits devices is arbitrary too.
- Instants are natural numbers and may go backwards; a 64-bit button word is the set of its one bits (`Chord.BitsDetermineWord`).
- Framing.ReadRetSubmit: RET_UNLINK is read by the model's reference client only, since `read_ret_submit` refuses it.
- Framing.StreamRoundTrip: concerns commands within the limits; what a reader does after an error is the end of its session.
- PumpResults.WindDownNeverStuck: supposes the internal counter has not run out, as the source does.
- PumpWaiters.WaiterAnswerable: likewise, in the state it speaks of.
- PumpWaiters.TakeKeepsItsPromise: likewise, before and after the take.
- PumpResults.WindDownEnds: empty polls of the 250 ms drain are not counted; its deadline, which is not modelled, bounds them.
- TomlRoundTrip.DocRoundTrip: keys and table names are bare (no quotes, hashes or line breaks, and no equals sign in keys); single quotes are printed around whole values only, not around elements of arrays.
- The attach daemon's other files, mDNS, the `vid:pid` filter, argument parsing, the JNI shim and the Android app.
