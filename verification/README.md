# A verified model of python-alsa-midi

`alsa_midi` is a Python binding of the ALSA sequencer. Most of it forwards calls to libasound, but some
parts hold state, loops and arithmetic of their own. This Dafny project models those parts and proves
what they promise. `dafny verify dfyconfig.toml` checks all of it.

ALSA itself appears only as an oracle with a small contract: a FIFO of events, a tape of answers to
output calls, an arbitrary MIDI encoder step, an allocator of queue ids, an enumeration of ports.
Whatever libasound decides is an argument, so a theorem about all arguments covers all its behaviours.

| file | what it models |
|---|---|
| `Kernel.dfy` | one non-blocking input attempt |
| `AsyncClient.dfy` | the asyncio client: input and output waits as atomic steps that share one reader slot; class `AsyncSequencerClient` performs the steps in place |
| `AsyncOutput.dfy` | an output call in that event loop, among other steps and other output, against the blocking wait |
| `SharedParser.dfy` | what output of others does to a byte event that waits: the MIDI encoder belongs to the client |
| `EventOutput.dfy` | output of events that are not byte streams, through the codec |
| `SyncInput.dfy` | the blocking `event_input` with its deadline |
| `OutputWait.dfy` | the plain output loop, the blocking wait and the callback based wait, for any output function |
| `ByteOutput.dfy` | MIDI byte events: chunks, remainders, submissions; class `OutputClient` holds the saved parser |
| `Bytes.dfy`, `EventCodec.dfy` | little-endian integers, the 28 byte struct, `_to_alsa` and `_from_alsa` |
| `EventRoundTrip.dfy` | events through the struct and back |
| `EventLayout.dfy` | the struct byte by byte in plain numbers, against which both directions of the codec are proved |
| `EventStruct.dfy` | `_to_alsa` writing into a mutable array |
| `QueueOwnership.dfy`, `QueueObjects.dfy` | life of `Queue` objects and of the weak cache, as a state machine and as objects |
| `PortListing.dfy` | `list_ports`: enumeration, filter, sort key |
| `MidoPorts.dfy` | device names and port lookup of the mido backend |
| `Decimal.dfy`, `RealTime.dfy`, `Tempo.dfy` | decimal text, `RealTime`, tempo and bpm |
| `TrackWriter.dfy` | variable-length quantities and track chunks of Standard MIDI Files |

## What the proofs found

The model follows the code. Where the code falls short of its documentation or of what a caller would
expect, the project states exactly when.

- An async output wait is registered with `add_reader` (alsa_midi/client.py:1869), so it is woken by
  *input*. A suspended output call is tried again without an arrival if and only if an event is already
  waiting to be read, however much output the kernel would accept (`AsyncClient.ServedWithoutArrivalIff`,
  `AsyncClient.SuspendedOutputHangs`). A byte event suspends exactly when its first answer is EAGAIN or
  its bytes take more than one encoder call, so every byte event of two messages hangs until an event
  arrives (`AsyncOutput.ByteEventHangsIff`).
- Two overlapping async waits lose the earlier one: a call that has to wait takes the slot, and the
  call it displaces is never completed. No wakeup is lost along a run if and only if no call suspends
  while another wait is outstanding (`AsyncClient.WakeupsKeptIff`, `AsyncClient.OverlappingWaitsLoseTheFirst`).
- All output of a client goes through one MIDI encoder (alsa_midi/client.py:422-431, 764). Output of another
  task between two attempts of a byte event that waits moves its state, and the event can lose messages
  although its call returns normally (`SharedParser.OthersSwallowEvents`). It goes unnoticed, whatever ALSA
  answers, if and only if what is left of the event, and all of it for each retry, folds to the same messages
  in the same number of encoder calls from either state (`SharedParser.OthersUnnoticedIff`).
- Both wait loops look at the result of the last chunk only. An error in the middle is ignored, and the
  event it was about is lost; EAGAIN at the end sends the whole byte event again, from the parser state
  reached. `ByteOutput.DeliveredOverAllPasses` gives what is delivered for every sequence of answers;
  `ByteOutput.WaitExactlyOnceIff` says, for every one that gets through a pass, when that is every
  event once.
- `_event_output_direct` drops the remainder (alsa_midi/client.py:873), so only the first message of a
  byte event is sent (`ByteOutput.DirectSendsFirstEventOnly`), after EAGAIN read from a parser that has
  already seen the bytes (`ByteOutput.DirectAfterRetries`). It and `event_output_buffer` call
  `snd_seq_event_output`, not the direct and buffer functions their documentation names.
- `create_queue` fails on an assertion, and leaks the queue the kernel has just allocated, exactly when
  a closed wrapper of the same id is still referenced (`QueueOwnership.CreateSucceedsIff`,
  `QueueOwnership.AbandonedForever`). `get_queue` returns such a closed wrapper, and an open one in every
  other case (`QueueOwnership.GetReturnsOpenIff`). Creating a queue and closing it while it stays
  referenced leads to both (`QueueOwnership.ClosedWrapperStaysCached`).
- Two lookups of a queue the client does not own give two wrappers that share one usage mark in the kernel:
  closing either clears it under the other (`QueueOwnership.MarkedIff`, `QueueOwnership.SecondUserLosesItsMark`).
- A timeout of zero means "wait for ever", as None does: `event_input` can return None if and only if
  the timeout is given and not zero (`SyncInput.TimesOutIff`).
- An event made with `flags=None` has no `flags` attribute and cannot be encoded; `EventRoundTrip.EncodesIff`
  says exactly which events can. A struct whose nanoseconds carry the seconds past 32 bits decodes to an
  event that cannot be encoded (`EventCodec.StructRoundTrip`).
- Setting a `QueueTempo` built by hand with a skew but no skew base fills in the default base instead
  (`Tempo.SetGotRestoresIff`). `vlq` never ends for a negative value (`TrackWriter.NegativeNeverEnds`).

## Model

| member | source | states |
|---|---|---|
| `Kernel.Attempt` | alsa_midi/client.py:663-687 | an attempt either consumes exactly the head of the FIFO or nothing; an event is handed out only if it was consumed, and EAGAIN never goes with a consumed event |
| `AsyncClient.RunKeepsInv` | alsa_midi/client.py:1799-1879 | every sequence of steps keeps conservation, ownership of consumed events, completion at most once |
| `AsyncClient.Conservation` | alsa_midi/client.py:1799-1833 | over every interleaving the arrivals are the consumed events, in order, then the FIFO; a call consumes at most one, a timed out or waiting call none; a delivered event was consumed by that call; no future is completed twice |
| `AsyncClient.WakeupKeptIff` | alsa_midi/client.py:1808-1823 | a step leaves some wait without its callback in the reader slot if and only if it is a call whose first attempt cannot finish it while another wait is outstanding |
| `AsyncClient.WakeupsKeptIff` | alsa_midi/client.py:1808-1877 | in every state along a run whoever waits has its own callback in the slot if and only if no call along it suspends while another wait is outstanding |
| `AsyncClient.OverlappingWaitsLoseTheFirst` | alsa_midi/client.py:1823-1869 | from the initial state, an input call that waits and then an output call that waits: the first is pending on every continuation |
| `AsyncClient.SequentialKeepsWakeup` | alsa_midi/client.py:1808-1877 | with at most one wait outstanding, whoever waits has its own callback in the slot, after any timeouts, stale callbacks and calls that finish at once |
| `AsyncClient.SequentialDelivery` | alsa_midi/client.py:1808-1833 | with at most one wait outstanding, a waiting input call gets the oldest event not yet consumed from the next run of the registered callback |
| `AsyncClient.ImmediateInput` | alsa_midi/client.py:1799-1823 | in every reachable state a call with something to read ends at once with the oldest event not yet taken, or with the code or exception of its decoding; a fault is raised; with nothing to read it suspends with its callback in the slot |
| `AsyncClient.SuspendedInput` | alsa_midi/client.py:1808-1833 | the same for a run of the registered callback of a call that waits |
| `AsyncClient.ImmediateOutput` | alsa_midi/client.py:1843-1869 | an output call in any state, by what its first attempt comes to |
| `AsyncClient.SuspendedOutput` | alsa_midi/client.py:1853-1879 | the same for a run of the registered callback, exceptions included |
| `AsyncClient.TimeoutExpires` | alsa_midi/client.py:1825-1829 | a wait with a timeout ends as None when it expires, leaving the slot alone; no other call is affected |
| `AsyncClient.OrphanNeverCompletes` | alsa_midi/client.py:1823-1833 | on every continuation a call whose callback was replaced is never completed; without a timeout it waits for ever |
| `AsyncClient.StaleCallbackIsInert` | alsa_midi/client.py:1808-1856 | on every continuation the callback of a settled call consumes nothing, submits nothing and completes nothing |
| `AsyncClient.OutputWaitNeedsInput` | alsa_midi/client.py:1853-1879 | as long as no event arrives, no behaviour of the loop attempts or completes a suspended call |
| `AsyncClient.ServedWithoutArrivalIff` | alsa_midi/client.py:1853-1879 | without an arrival a suspended call is attempted again or completed on some continuation if and only if its callback is in the slot and an event is already there to be read |
| `AsyncClient.SuspendedOutputHangs` | alsa_midi/client.py:1843-1879 | from the initial state, an output call that suspends is attempted once and stays pending as long as no event arrives |
| `AsyncClient.AsyncSequencerClient.EventInput` | alsa_midi/client.py:1787-1833 | the coroutine up to its await does to slot, calls and FIFO exactly what the step says |
| `AsyncClient.AsyncSequencerClient.ReaderCb` | alsa_midi/client.py:1808-1821 | the reader callback does exactly what the step says |
| `AsyncClient.AsyncSequencerClient.EventOutputWait` | alsa_midi/client.py:1843-1869 | the output coroutine up to its await does exactly what the step says |
| `AsyncClient.AsyncSequencerClient.WriterCb` | alsa_midi/client.py:1853-1867 | the writer callback does exactly what the step says, also when the output function raises |
| `AsyncOutput.CallbacksTogether` | alsa_midi/client.py:1853-1867 | a run of the callback in the shared loop and of the closure with its full remainder stay in step |
| `AsyncOutput.LoopRefinesSync` | alsa_midi/client.py:1843-1879 | an output call served by the shared loop, among arrivals, timeouts, resumptions, and any other output and calls that do not suspend, waits, returns or raises as the blocking wait does for the same answers when the same others change the shared output state between its attempts |
| `AsyncOutput.ClosureIsShared` | alsa_midi/client.py:1853-1867 | the callbacks do what is left of the blocking wait under the same changes of the shared state |
| `AsyncOutput.UndisturbedLoopRefinesSync` | alsa_midi/client.py:1843-1879 | if others keep the part of the shared state the output function looks at, the call ends as the blocking wait does alone |
| `AsyncOutput.StructOutputUndisturbed` | alsa_midi/client.py:752-755 | an event that is not a byte stream is never disturbed |
| `AsyncOutput.ByteOutputUndisturbed` | alsa_midi/client.py:757-775 | a byte event is not disturbed by others that leave the parser state as they found it |
| `SharedParser.DisturbanceUnnoticedIff` | alsa_midi/client.py:757-775 | for two parser states, what is left of a byte event makes the same submissions and ends alike for every sequence of answers if and only if it, and all the bytes once for each retry, fold to the same events in the same number of encoder calls |
| `SharedParser.OthersUnnoticedIff` | alsa_midi/client.py:422-431 | a byte event that waits in the loop does not notice other output, however it is served after it, if and only if those folds agree from the parser state the others found and the one they left |
| `SharedParser.LogPlaysNoPart` | alsa_midi/client.py:777-789 | what was submitted before has no influence on what a byte event submits |
| `SharedParser.OthersSwallowEvents` | alsa_midi/client.py:1853-1867 | three events, the second callback after another call that finished at once: the call returns normally and two events are gone; alone it sends all three |
| `AsyncOutput.ByteEventHangsIff` | alsa_midi/client.py:1843-1879 | as long as no event arrives, an output call of a byte event stays pending if and only if its first answer was EAGAIN or its bytes take more than one encoder call, as any two messages do |
| `SyncInput.EventInput` | alsa_midi/client.py:1639-1657 | for any arrivals and clock readings: exactly the oldest event, or an error, or None with nothing consumed; None at the first reading at or past the deadline that follows an attempt without an event |
| `SyncInput.InputRunExplained` | alsa_midi/client.py:1639-1657 | the same about the call as a function of arrivals, oracles and clock readings |
| `SyncInput.RoundDecides` | alsa_midi/client.py:1645-1657 | what the call does in the first round with something to read, a fault or the deadline: it returns exactly the oldest event if that can be decoded, raises the code or exception of the library if not, returns None at the deadline |
| `SyncInput.EndingHasCause` | alsa_midi/client.py:1645-1657 | an exception comes only from the decoder, a code only from a fault or the decoder, an event only from an attempt that could read and decode it |
| `SyncInput.TimesOutIff` | alsa_midi/client.py:1639-1657 | there are arrivals and clock readings for which the call returns None if and only if the timeout is given and not zero |
| `SyncInput.SilentCallTimesOut` | alsa_midi/client.py:1644-1654 | with nothing to read the call returns None at the first clock reading that reaches the timeout, and polls until then |
| `OutputWait.EventOutput` | alsa_midi/client.py:815-822 | the plain loop runs to the first negative result or the end of the event |
| `OutputWait.EventOutputWait` | alsa_midi/client.py:1667-1687 | the blocking wait, for any output function and answers |
| `OutputWait.EventOutputWaitAsync` | alsa_midi/client.py:1843-1879 | the coroutine and its callback, for any output function and answers |
| `OutputWait.OutputWaiter.WriterCb` | alsa_midi/client.py:1853-1867 | the callback updates remainder, future and registration as specified |
| `OutputWait.CallbacksAreSync` | alsa_midi/client.py:1853-1879 | from any remainder the callbacks do what is left of the blocking wait; the callback stays registered only while waiting, or after an exception with a remainder |
| `OutputWait.AsyncRefinesSync` | alsa_midi/client.py:1667-1687 | both waits make the same submissions in the same order and end alike, for every output function and every sequence of answers |
| `OutputWait.BaseAgreesIff` | alsa_midi/client.py:815-822 | the plain loop and the waits agree if and only if the plain loop does not stop at an error in the middle of an event or at EAGAIN |
| `OutputWait.NoNegativeAnswerAgrees` | alsa_midi/client.py:815-822 | without a negative answer all three loops agree |
| `ByteOutput.Encode` | alsa_midi/client.py:764-775 | the encoder contract: progress on non-empty input, and no event only when everything was consumed |
| `ByteOutput.FoldAppend` | alsa_midi/client.py:757-775 | folding two pieces of a stream one after the other is folding the whole |
| `ByteOutput.WaitPass` | alsa_midi/client.py:1667-1687 | from any remainder and for every tape: one pass submits the fold of the bytes once, in order, under one header; middle answers are ignored; the last decides; EAGAIN there starts over from the parser state reached |
| `ByteOutput.WaitExactlyOnceIff` | alsa_midi/client.py:1675-1687 | for every tape that gets through a pass, a byte event is accepted exactly once if and only if what the first pass kept and what later passes deliver make up its events; with nothing delivered later, if and only if no event got a negative answer; if none did, if and only if nothing is delivered later |
| `ByteOutput.OneMessageAcceptedOnce` | alsa_midi/client.py:1675-1687 | a byte event of one encoder call from each parser state its retries reach: after any number of EAGAIN answers the event read from the last state is accepted exactly once, or not at all if the deciding answer is negative |
| `ByteOutput.DeliveredOverAllPasses` | alsa_midi/client.py:1667-1687 | for every tape, restarts included: what ALSA accepts is, pass by pass, the events without a negative answer, each pass starting from the parser state the previous one left |
| `ByteOutput.AsyncDeliversTheSame` | alsa_midi/client.py:1843-1879 | the callback based wait delivers the same |
| `ByteOutput.ByteEventSuspendsIff` | alsa_midi/client.py:1843-1847 | the coroutine has to wait if and only if the first answer is EAGAIN or the bytes take more than one encoder call |
| `ByteOutput.OutputConserves` | alsa_midi/client.py:815-822 | without a negative answer `event_output` submits exactly the fold of the bytes from the saved parser state and returns the last answer |
| `ByteOutput.ChunkInvariance` | alsa_midi/client.py:757-822 | sending b1 then b2 submits the same events and leaves the same parser state as sending b1 + b2 |
| `ByteOutput.OutputClient.EncodeBytes` | alsa_midi/client.py:764-775 | the byte loop of the encoder leaves the parser and returns the event and count of the specification |
| `ByteOutput.OutputClient.EventOutputOnce` | alsa_midi/client.py:752-789 | one attempt changes parser, log and remainder as specified |
| `ByteOutput.OutputClient.EventOutput` | alsa_midi/client.py:815-822 | the loop on the client object leaves the parser and log of the plain run |
| `ByteOutput.OutputClient.EventOutputBuffer` | alsa_midi/client.py:847-859 | the same submissions as `event_output`; only the answer to a last chunk without an event goes unchecked |
| `ByteOutput.DirectSendsFirstEventOnly` | alsa_midi/client.py:861-873 | one attempt of the direct form delivers the first event unless its answer is negative, hence the whole stream if and only if there is nothing else in it |
| `ByteOutput.DirectAfterRetries` | alsa_midi/client.py:861-873 | after any number of EAGAIN answers it delivers the first event as read from the parser state that many attempts at all the bytes have left |
| `EventOutput.EventSentOnce` | alsa_midi/client.py:752-755 | for every event, encoded anew on each attempt: after any number of EAGAIN answers every attempt has submitted the same struct, the first other answer decides, and both waits agree; an event out of range raises with nothing submitted |
| `EventOutput.AcceptedEventDecodes` | alsa_midi/client.py:752-789 | the one struct accepted of an event in range decodes to its type, attributes, source and destination |
| `ByteOutput.StructExactlyOnce` | alsa_midi/client.py:1667-1687 | for a given struct, after any number of EAGAIN answers the loop has submitted it each time and the first other answer decides |
| `ByteOutput.StructAcceptedOnce` | alsa_midi/client.py:1675-1687 | such an event is accepted exactly once, or not at all if that answer is an error |
| `ByteOutput.StructExactlyOnceAsync` | alsa_midi/client.py:1843-1879 | the same for the callback based wait |
| `ByteOutput.ErrorInTheMiddleLoses` | alsa_midi/client.py:1676-1678 | a negative answer in the middle of two events loses the first although the call returns normally |
| `ByteOutput.EagainAtTheEndRepeats` | alsa_midi/client.py:1676-1678 | EAGAIN on the last of two events sends the first one twice |
| `ByteOutput.AsyncLosesAndRepeats` | alsa_midi/client.py:1853-1867 | the callback based wait loses and repeats the same events |
| `EventCodec.GetTime` | alsa_midi/event.py:300-309 | a decoded time is normal and keeps the total of the struct |
| `EventCodec.FieldsRoundTrip` | alsa_midi/event.py:434-1115 | what each class reads it writes back to the same bytes, with the stated exceptions |
| `EventCodec.StructRoundTrip` | alsa_midi/event.py:300-383 | decoding by type and encoding into a zeroed struct yields the canonical struct, and fails only where a carry exceeds 32 bits |
| `EventCodec.StructRestoredIff` | alsa_midi/event.py:300-383 | all 28 bytes are restored if and only if the upper half behind a tick is empty, nanoseconds are normal, and external data is flagged and in place |
| `EventCodec.OnlyExceptionsChange` | alsa_midi/event.py:300-383 | every byte outside the listed exceptions is restored for every struct |
| `EventCodec.PayloadRestored` | alsa_midi/event.py:735-746 | for external data the payload content survives whatever the pointer |
| `EventLayout.EncodedAsLaidOut` | alsa_midi/_ffi_defs.py:159-270 | every in-range event is encoded to the 28 bytes of the layout: type, flags, tag, queue (253), stamp, source, destination (254) and the data of its class, by type number, at literal positions, integers least significant byte first |
| `EventLayout.DecodedAsLaidOut` | alsa_midi/_ffi_defs.py:159-270 | every struct is decoded from the same positions by type number, and refused only for a note out of range |
| `EventRoundTrip.HeaderWritten` | alsa_midi/event.py:325-383 | what the base class leaves in each header field, arguments before attributes before defaults |
| `EventRoundTrip.FlagBits` | alsa_midi/event.py:346-356 | the stamp and mode bits after encoding, for any flags |
| `EventRoundTrip.FieldsReadBack` | alsa_midi/event.py:434-1115 | every attribute written by a class is read back by it |
| `EventRoundTrip.EncodesIff` | alsa_midi/event.py:325-383 | an event can be encoded if and only if its flags are set, it has not both time and tick, the queue argument is not closed, and every number fits its field |
| `EventRoundTrip.EventRecovered` | alsa_midi/event.py:325-383 | every in-range event encodes and is recovered: type, tag, class attributes, mode, other flag bits, time or tick, queue, source and destination with defaults and precedence, and raw data cut at or filled up to twelve bytes where the class adds no attribute |
| `EventRoundTrip.EncodedIsRegular` | alsa_midi/event.py:325-383 | every in-range event encodes, and its struct has none of the exceptions |
| `EventRoundTrip.EncodeDecodeEncode` | alsa_midi/event.py:300-383 | for every in-range event, encoding, decoding and encoding gives the first struct again, up to the place of an external payload |
| `EventStruct.WriteFront` | alsa_midi/event.py:330-356 | type, tag, queue and timestamp written in place, and the flags computed on the way |
| `EventStruct.WriteBack` | alsa_midi/event.py:357-381 | addresses, raw data and flags written in place |
| `EventStruct.WriteFields` | alsa_midi/event.py:464-1115 | the overrides of the specialised classes in place |
| `EventStruct.ToAlsa` | alsa_midi/event.py:325-383 | writing into the array succeeds exactly when the encoding does and leaves that struct; a zeroed array and an event in range give the bytes of the layout |
| `QueueOwnership.RunKeepsInv` | alsa_midi/queue.py:252-288 | every run keeps cache agreement, exclusive ownership and the account of allocations |
| `QueueOwnership.OwnershipExclusive` | alsa_midi/client.py:555-580 | open owners have distinct ids that are allocated to the client; an allocation is freed at most once, and until the client is closed it is either owned or freed |
| `QueueOwnership.GetReturnsOwner` | alsa_midi/client.py:582-595 | while an open owner of an id exists `get_queue` returns that object and changes nothing |
| `QueueOwnership.CreateSucceedsIff` | alsa_midi/client.py:576-580 | creation makes an owner if and only if no object is cached under the id; otherwise the cached object is closed and the allocation is abandoned |
| `QueueOwnership.GetReturnsOpenIff` | alsa_midi/client.py:582-595 | `get_queue` returns an open object if and only if no object is cached under the id or the cached one is still an open owner |
| `QueueOwnership.ClosedWrapperStaysCached` | alsa_midi/client.py:576-595 | create and close while the wrapper is referenced: looking the id up returns the closed wrapper, and creating it again abandons the allocation for good |
| `QueueOwnership.AbandonedForever` | alsa_midi/client.py:576-580 | an abandoned allocation stays until the client is closed, whatever is done with wrappers |
| `QueueOwnership.ClosedStaysClosed` | alsa_midi/client.py:393-406 | after the client is closed no run changes kernel state through it |
| `QueueOwnership.HarmlessForever` | alsa_midi/queue.py:271-288 | closing again, at any later time, and closing an unmanaged wrapper leave the kernel alone |
| `QueueOwnership.WrappedIsUnmanaged` | alsa_midi/queue.py:252-288 | `Queue(client, id)`, made at any point of a run, is open under its id until it is closed or collected, and neither its making nor its closing, however late, changes the kernel |
| `QueueOwnership.CollectedIsForgotten` | alsa_midi/queue.py:257-261 | collecting an object closes it and takes it and nothing else out of the cache, after which its id can be created again |
| `QueueOwnership.ForeignQueuesApart` | alsa_midi/client.py:571-575 | no queue of another client has the id of one the client owns, in any reachable state |
| `QueueOwnership.MarkedIff` | alsa_midi/client.py:582-595 | after any run a queue is marked as used if and only if some lookup made a wrapper for it and no wrapper using it, from whichever lookup, nor the client was closed since |
| `QueueOwnership.SecondUserLosesItsMark` | alsa_midi/queue.py:277-288 | two lookups, one close: the other wrapper is open without its mark |
| `QueueOwnership.CloseOnce` | alsa_midi/queue.py:277-288 | the exact effect of a close on the kernel and on the other wrappers |
| `QueueObjects.Queue.Close` | alsa_midi/queue.py:271-288 | the object forgets id, ownership and client and calls the kernel as the step says |
| `QueueObjects.SequencerClient.CreateQueue` | alsa_midi/client.py:555-580 | the object method performs the step, and fails exactly for a closed client, a failed allocation or a cached id |
| `QueueObjects.SequencerClient.GetQueue` | alsa_midi/client.py:582-595 | the object method performs the step and returns the cached object if there is one |
| `QueueObjects.SequencerClient.DropQueue` | alsa_midi/queue.py:257-261 | collecting an object closes it and removes it from the weak cache |
| `QueueObjects.SequencerClient.CloseHandle` | alsa_midi/client.py:393-406 | closing the client performs the step |
| `PortListing.Accepts` | alsa_midi/client.py:1180-1213 | the branches of the loop accept exactly the ports of the declarative filter |
| `PortListing.SortKey` | alsa_midi/port.py:288-300 | the loop finds the least preferred type the port has |
| `PortListing.Tier` | alsa_midi/port.py:294-298 | no earlier preferred type matches |
| `PortListing.Collect` | alsa_midi/client.py:1153-1216 | the nested enumeration collects the matching ports in order, or raises the first error |
| `PortListing.ListPorts` | alsa_midi/client.py:1141-1233 | the whole method, with its choice of preferences |
| `PortListing.ListingSorted` | alsa_midi/client.py:1218-1233 | the listing is a permutation of exactly the matching ports, strictly increasing: "Midi Through" last, then by preference, client number and port number |
| `PortListing.PreferenceOrder` | alsa_midi/port.py:51-63 | which types of port come first for output alone and for other listings, by the weights of the flags |
| `PortListing.MatchesByWeights` | alsa_midi/client.py:1162-1213 | the filter by the weights of the capability flags, both directions |
| `PortListing.ListingFailsIff` | alsa_midi/client.py:1154-1176 | listing succeeds if and only if every enumeration made ends with -ENOENT, and otherwise raises the code of the first that does not |
| `PortListing.IncreasingUnique` | alsa_midi/port.py:288-300 | given ports have only one increasing arrangement |
| `PortListing.EnumerationOrderIrrelevant` | alsa_midi/client.py:1153-1233 | the enumeration order does not show in the sorted listing |
| `PortListing.DirectionAlgebra` | alsa_midi/client.py:1187-1213 | both directions give the intersection of the one-way listings, neither gives their union |
| `PortListing.InputListingsAreSubsequences` | alsa_midi/client.py:1218-1231 | input and input+output listings are the listing for neither with other ports left out |
| `MidoPorts.GetDevices` | alsa_midi/mido_backend.py:61-71 | one device per port, in order, with the directions of its capabilities |
| `MidoPorts.DeviceNamesDistinct` | alsa_midi/mido_backend.py:66-67 | equal device names mean equal addresses and equal names, whatever characters the names hold |
| `MidoPorts.ListedDevicesDistinct` | alsa_midi/mido_backend.py:61-71 | the devices of a listing have pairwise distinct names |
| `MidoPorts.FindPort` | alsa_midi/mido_backend.py:96-132 | an address decides alone; otherwise the first port of the best matching tier, or an error when none matches |
| `MidoPorts.FoundByTiers` | alsa_midi/mido_backend.py:111-132 | a name that is no address is looked up as device name, as "client:port", as client name and as port name, in that order, first port first |
| `MidoPorts.FoundByAddress` | alsa_midi/mido_backend.py:102-109 | an address finds the first port with that client and port number, or none |
| `MidoPorts.DeviceDirections` | alsa_midi/mido_backend.py:65-69 | a device is an input if it can be read and an output if it can be written; its name is "client:port 20:0" |
| `MidoPorts.DeviceFoundIff` | alsa_midi/mido_backend.py:96-114 | a device name finds its own port if and only if it does not parse as the address of another |
| `RealTime.MakeKeepsTotal` | alsa_midi/event.py:46-53 | construction raises exactly for negative nanoseconds or a negative total, else keeps the total and normalises |
| `RealTime.NanosecondsCarry` | alsa_midi/event.py:46-53 | normal values are kept as given, others carry in thousand millionths |
| `RealTime.ShiftKeepsTotal` | alsa_midi/event.py:34-53 | the same for a `RealTime` plus nanoseconds |
| `RealTime.OrderIsTotalOrder` | alsa_midi/event.py:67-75 | order and equality are those of total nanoseconds |
| `RealTime.StrInjective` | alsa_midi/event.py:58-59 | the text is the seconds, a point and nine digits of nanoseconds, read back as such; different times have different texts |
| `Tempo.SetTempo` | alsa_midi/queue.py:307-332 | the step by step defaulting computes the struct of `Setting`; for a bpm between 0 and 60000000 the tempo in it plays at the requested bpm or faster by less than bpm² / (60000000 − bpm) |
| `Tempo.SettingMeans` | alsa_midi/queue.py:307-332 | the struct sent: the same bound, the tempo as the whole number at or below 60000000 / bpm, explicit arguments over the fields of a `QueueTempo`, ppq 96 and skew base 65536 by default |
| `Tempo.SettingRaisesIff` | alsa_midi/queue.py:307-313 | it raises if and only if both or neither of tempo and bpm are given, or the bpm is zero |
| `Tempo.EventTempoMeans` | alsa_midi/event.py:985-997 | a tempo event needs one of tempo and bpm, and rounds 60000000 / bpm to the nearest whole number, the even one of two |
| `Tempo.SetGotRestoresIff` | alsa_midi/queue.py:313-332 | setting a `QueueTempo` with skew and skew base, as reading fills it in or built by hand, sends exactly it if and only if there is no skew or the base is not zero |
| `Tempo.FloorTempoBound` | alsa_midi/queue.py:145-147 | the arithmetic of that bound: the bpm of the floored tempo is at least the requested bpm and exceeds it by less than bpm² / (60000000 − bpm) |
| `Tempo.RoundTempoBound` | alsa_midi/event.py:994-995 | the tempo event is within half a microsecond of the exact tempo |
| `Tempo.TempoRecovered` | alsa_midi/queue.py:145-147 | a tempo is recovered from its own bpm |
| `TrackWriter.WriteVlq` | tests/data/generate.py:21-29 | the shifting loop terminates and yields the quantity |
| `TrackWriter.NegativeNeverEnds` | tests/data/generate.py:24-27 | shifting reaches zero for non-negative values and never for negative ones |
| `TrackWriter.VlqReadBack` | tests/data/generate.py:21-29 | the top bit is on all bytes but the last, and the standard decoder reads the value back whatever follows |
| `TrackWriter.VlqShortest` | tests/data/generate.py:21-29 | no well shaped encoding of the value is shorter |
| `TrackWriter.VlqPrefixFree` | tests/data/generate.py:21-29 | no quantity is the beginning of another |
| `TrackWriter.ConcatUnique` | tests/data/generate.py:21-29 | concatenated quantities decode uniquely |
| `TrackWriter.WriteTrack` | tests/data/generate.py:32-41 | the appending loop writes tag, length and data, or raises when the length does not fit |
| `TrackWriter.TrackLaidOut` | tests/data/generate.py:32-41 | the chunk byte by byte: "MTrk", the length most significant byte first, delta times and messages, 00 FF 2F 00 at the end; not written from 4294967296 bytes on |
| `TrackWriter.TrackReadBack` | tests/data/generate.py:32-41 | the events of a written track are read back, for any message sizes that recognise them |

## Left out

- The ALSA library, cffi memory management and the kernel: oracles stand for them, with the contracts above. A fault is a negative code; a decoder failure is never EAGAIN; a queue id is not allocated twice; an enumeration ends with a negative code; `snd_seq_free_queue` frees only what the client owns.
- Closing the client while async waits are outstanding, cancellation of tasks from outside, and `drop_input`: not steps of the event loop model.
- `AsyncClient.Conservation`: a timeout needs a future that is not done, so a completed future beats a timeout that expires in the same turn of the loop; that a timed out call owns no event rests on this.
- Progress of overlapping async waits: the model shows that the displaced wait is lost, and conserves events nevertheless.
- The timeout argument of `_event_output_wait`: no caller passes one; it is modelled in the shared event loop only.
- `EventStruct.ToAlsa`: the contents of a struct whose encoding raised half way are not described, because callers drop it.
- `EventCodec.StructRoundTrip`: flag bits without a name are kept by the mask operations, as in Python versions whose `IntFlag` keeps them.
- Floating point: bpm values are reals, and the float and string arguments of `RealTime` are not modelled.
- Flag words of ports are sets of bits; `sort` given as a function of the caller is not modelled, and `list.sort` is a stable insertion.
- Address parsing is a parameter of the port lookup; `snd_seq_parse_address` is not part of this model.
- `Queue.set_usage` and other direct calls on a queue, `Port.close` (the life of an unmanaged wrapper with one kernel call), virtual mido ports, the mido input thread.
- The tempo of `tests/data/generate.py`, the file header, `remove_events` conditions, client and pool information, representations: no property of their own.
