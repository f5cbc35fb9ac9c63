# The cartridge runtime: streams, credit, scheduling

A Dafny model of the cartridge runtime's protocol code and of three smaller cores beside it, with
proofs about them. `dafny verify dfyconfig.toml` checks everything.

The parts, in the order a frame meets them:

- **Sending** (`Output`, `OutputStreams`, `Coalescing`, `TextSplit`, `ItemFraming`, `Lossless`). An
  output stream and the senders detached from it share one coalescing buffer, one chunk counter and one
  credit gate. The classes follow the code call by call; the theorems say what a receiver can conclude
  from the frames.
- **The writer** (`Wire`, `Writer`, `WriterTheorems`). The thread that decides the order on the wire
  numbers each flow and suppresses what comes after a flow's END or ERR, for as many flows as it
  remembers.
- **Receiving** (`Frames`, `Checksums`, `Demux`, `PeerDemux`, `Reassembly`, `Isolation`, `Windows`,
  `Restarts`, `Agreement`, `InputStream`, `EndToEnd`, `Integrity`). Two demultiplexers share one
  framing: the one for requests keeps maps of streams and windows, the one for peer responses a single
  stream. `EndToEnd` goes from a sender's calls to what the handler collects, and `Integrity` says what
  becomes of what is not sound.
- **Credit** (`Credit`, `CreditLink`, `CreditTheorems`, `CreditLimits`, `LinkRefinement`,
  `CreditedDelivery`). Gate, frames in flight, window, delivered items, pending grants and grants in
  flight form one transition system; the theorems hold for all its interleavings. Its runs are tied to
  the demultiplexer's, so that credit and content are proved together.
- **Scheduling** (`Scheduler`, `SchedulerRuns`, `SchedulerTerminals`, `SchedulerOrder`,
  `SchedulerActions`, `SchedulerInput`, `SchedulerProgress`, `Answers`). The main loop with its queue,
  handlers and cancellation, run together with handlers that emit, conclude and signal at any time.
  `Answers` puts the loop and the writer together.
- **Codecs** (`Utf8`, `Cbor`, `CborWaiting`, `Base64`, with the examples of their standards in
  `KnownValues`) and **choices** (`Versions`, `Numerals`, `Handlers`).

Methods of classes are proved equal to specification functions of the old state; the theorems are
about those functions, over all inputs and all runs.

## What the code does that its comments do not say

- `OutputStream::emit_cbor` does not flush before the elements of an array, although the comment above
  the coalescing buffer says every emission other than bytes does. An array over buffered bytes keeps
  its place only if the order makes no difference (`Lossless.ArrayKeepsItsPlaceIff`).
- END drops a half-received sequence item without an error; only STREAM_END reports it
  (`Agreement.EndForgetsHalfItem`).
- A scalar START under the id of a sequence that was not ended leaves its reassembly in place, half item
  included (`Restarts.UnendedGoesOn`).
- A reader that uses `recv_data` never gives credit back, so a stream longer than the sender's window
  stalls (`CreditLimits.RecvDataScalar`); the identity op reads this way.
- An item of several frames never finishes arriving under a sender window of 1
  (`CreditLimits.RecvDeliversIff`).
- The writer's loop flushes only on its `Empty` branch, but `write_frame_sync` flushes after every
  frame, so no frame is ever left unflushed on either branch (`Writer.FrameWriter.Loop`).
- The ERR CANCELLED deferred until a cancelled handler is done always follows that handler's own END or
  ERR and is suppressed at the gate while the flow is remembered, so a host does not see it for a
  request that was running (`Answers.ExactlyOneTerminal`).
- A request that finds room while others wait starts before them. This needs the capacity to be raised
  between the top of the loop and the next REQ (`SchedulerOrder.RaisedCapacityOvertakes`).
- `resolve_for_host` can call the latest version outdated although it has a build for the host: when
  another usable version stands before it in the list (`Versions.OutdatedAlthoughUsableIff`). That one
  is newer, or the same number spelled differently; then the order of the hash map decides
  (`Versions.EqualVersionsDependOnTheMap`).
- A request under an id that still runs or waits spoils the loop's bookkeeping at once
  (`SchedulerTerminals.RequestKeptIff`, `SchedulerProgress.SharedIdMiscounts`); one under a flow whose
  terminal the gate remembers is never answered on the wire (`Answers.EveryRequestOnTheWire`).
- Between handlers at the same distance the hash map's order decides
  (`Handlers.OrderIndependentIff`).
- The base64 decoder, described as refusing any malformed input, accepts stray bits before the padding
  (`Base64.CanonicalIff`).

## Model

| member | source | states |
|---|---|---|
| Utf8.RoundTrip | src/bifaci/cartridge_runtime.rs:1694-1715 | decoding the UTF-8 of any text gives the text back |
| Utf8.DecodeIsExact | src/bifaci/cartridge_runtime.rs:1694-1715 | a byte string decodes to a text if and only if it is that text's encoding: no overlong form, surrogate or stray byte is accepted |
| KnownValues.KnownTexts | src/bifaci/cartridge_runtime.rs:1694-1715 | the encodings are those of the examples in section 7 of RFC 3629 |
| Cbor.RoundTrip | src/bifaci/cartridge_runtime.rs:3531-3547 | the encoding of any value (section 3 of RFC 8949), followed by anything, decodes to that value and consumes exactly its own bytes |
| Cbor.ProperPrefixNeedsMore | src/bifaci/cartridge_runtime.rs:3531-3547 | every proper prefix of an encoded value asks for more bytes: it is never taken for a value or an error |
| Cbor.Stable | src/bifaci/cartridge_runtime.rs:3531-3547 | what has been decoded, or found malformed, stays so whatever bytes follow |
| CborWaiting.WaitEnds | src/bifaci/cartridge_runtime.rs:3531-3547 | whatever has come, enough further bytes complete it or spoil it: no bytes are waited on for ever |
| KnownValues.HeadIs | src/bifaci/cartridge_runtime.rs:3531-3547 | every head is the major type and its argument in the shortest of the five forms, byte by byte |
| KnownValues.KnownRefusals | src/bifaci/cartridge_runtime.rs:3531-3547 | reserved and indefinite heads, a lone break, a stray byte in text and an unassigned simple value are malformed |
| Reassembly.Receive | src/bifaci/cartridge_runtime.rs:3719-3754 | the drain loop over one fragment delivers what the specification `Push` delivers, and credits it exactly when it continues an item |
| Reassembly.IncrementalIsBatch | src/bifaci/cartridge_runtime.rs:3719-3754 | for any cutting of any bytes, valid or not, the values delivered are those of decoding all bytes at once, in order, with an error in one exactly when in the other and the same tail left |
| ItemFraming.EmittedItemsArrive | src/bifaci/cartridge_runtime.rs:1591-1611 | items sent with `emit_list_item` at any `max_chunk` arrive one by one, each with exactly its own metadata, and every frame but the first of each item is credited on arrival |
| ItemFraming.CutStream | src/bifaci/cartridge_runtime.rs:3985-4000 | a sequence cut after any number of frames has delivered exactly the complete items, and STREAM_END reports one error if and only if the cut falls inside an item |
| Demux.MultiDemux.constructor | src/bifaci/cartridge_runtime.rs:3555-3589 | a new demultiplexer knows nothing of any stream |
| Demux.MultiDemux.OnStart | src/bifaci/cartridge_runtime.rs:3591-3656 | STREAM_START opens, arms and announces one stream, and leaves every other stream as it was |
| Demux.MultiDemux.OnChunk | src/bifaci/cartridge_runtime.rs:3682-3770 | CHUNK charges the window of its stream, refuses, decodes or reassembles it, and leaves every other stream as it was |
| Demux.MultiDemux.OnStreamEnd | src/bifaci/cartridge_runtime.rs:3984-4001 | STREAM_END reports a half item, closes its stream, and leaves every other stream as it was |
| Demux.MultiDemux.Handle | src/bifaci/cartridge_runtime.rs:3589-4040 | one frame changes each stream exactly as that stream's own one-stream specification says, announces what it must, and stops the loop on END, ERR or a START without id |
| Demux.MultiDemux.Run | src/bifaci/cartridge_runtime.rs:3589-4046 | the whole loop over maps of channels, windows and reassemblies leaves every stream, and the list of announcements, where the one-stream specifications, run on the same inputs, leave them |
| Checksums.OneAlteredByteShows | src/bifaci/frame.rs:1240-1252 | payloads of one length that differ in exactly one byte have different checksums |
| Checksums.KnownChecksums | src/bifaci/frame.rs:1240-1252 | the checksums of no bytes and of `a` are those of 64-bit FNV-1a |
| Integrity.SpoiledChunkFails | src/bifaci/cartridge_runtime.rs:3683-3719 | a chunk without its payload's checksum hands the reader one error, of its kind, and nothing of its payload |
| Integrity.AlteredChunkFails | src/bifaci/cartridge_runtime.rs:3698-3719 | no chunk altered in one byte is delivered, whatever else the stream holds |
| Integrity.IntactChunkArrives | src/bifaci/cartridge_runtime.rs:3698-3770 | an intact chunk of a scalar stream inside its window hands over its first value with its metadata, whatever bytes follow it |
| Integrity.UnfinishedItemFails | src/bifaci/cartridge_runtime.rs:3984-4000 | STREAM_END in the middle of an item hands over the number of bytes it was cut at, and closes |
| Integrity.EveryReaderIsClosed | src/bifaci/cartridge_runtime.rs:3589-4046 | whatever arrives, every reader that was opened is closed, once, before the next is opened |
| Integrity.StartsAreAnnounced | src/bifaci/cartridge_runtime.rs:3591-3656 | the handler is told of each STREAM_START with an id before the end, once, in order |
| Integrity.EndIsAnnounced | src/bifaci/cartridge_runtime.rs:3589-4040 | and of nothing else before the end; END is not told, ERR by its error, a START without an id as a protocol error, and after it nothing |
| Isolation.OnlyOwnInputsMatter | src/bifaci/cartridge_runtime.rs:3589-4006 | all a reader is handed, violations included, is decided by the inputs that concern its own stream |
| Isolation.InterleavingIsInvisible | src/bifaci/cartridge_runtime.rs:3589-4006 | all interleavings of a stream's frames with those of others hand its reader the same items, errors and closures |
| Windows.WindowIsAccounted | src/bifaci/cartridge_runtime.rs:3610-3696 | after a START the window is the initial credit, less the chunks since, plus the grants since, plus what went back for fragments of that stream, and not for those of an earlier one of its id |
| Restarts.EndedIsForgotten | src/bifaci/cartridge_runtime.rs:3984-4001 | STREAM_END leaves nothing behind: under an id used again the reader is handed what it would be under a new one |
| Restarts.UnendedGoesOn | src/bifaci/cartridge_runtime.rs:3633-3642 | a scalar START over a sequence that was not ended goes on with its half-received item |
| Restarts.NoIdIsTheEmptyId | src/bifaci/cartridge_runtime.rs:3658-3684 | chunks and STREAM_ENDs without an id belong to the stream named by the empty string and to no other |
| PeerDemux.SingleDemux.Run | src/bifaci/cartridge_runtime.rs:4060-4200 | the peer-response loop hands over what its specification hands over on every frame list |
| Restarts.ScalarStartIsNothing | src/bifaci/cartridge_runtime.rs:4078-4086 | a scalar START changes nothing in a peer response, wherever it stands |
| Restarts.SequenceStartsAfresh | src/bifaci/cartridge_runtime.rs:4078-4086 | a sequence START drops what was half received and what follows is handed over and credited as in a response that begins with it |
| Restarts.OnlyTheFirstSequenceCredits | src/bifaci/cartridge_runtime.rs:4064-4086 | from the second sequence START of a response on no fragment is credited |
| Agreement.TheDemuxesAgree | src/bifaci/cartridge_runtime.rs:4076-4173 | on any START, body, STREAM_END of one stream within its window, scalar or sequence, with bad checksums, garbage or truncation, both demultiplexers hand over the same values, metadata and errors, and credit the same fragments |
| Agreement.EndForgetsHalfItem | src/bifaci/cartridge_runtime.rs:4003-4006 | ended by END instead of STREAM_END, the two agree if and only if no item is half received: the multi-stream one lets a half item vanish |
| Agreement.HalfItemVanishes | src/bifaci/cartridge_runtime.rs:4003-4006 | one byte of a two-byte item and then END: the peer demultiplexer reports the truncation, the multi-stream one nothing |
| Integrity.ErrEndsBoth | src/bifaci/cartridge_runtime.rs:4174-4195 | ended by ERR the two agree on everything: the items before it, and the same error last |
| Integrity.LinesInPlace | src/bifaci/cartridge_runtime.rs:4156-4158 | the peer demultiplexer hands over every LOG line before the end, in order |
| Credit.CreditGate.TryAcquire | src/bifaci/credit.rs:100-113 | an open gate gives n credits exactly when it has them; a closed one reports why and keeps its count |
| Credit.CreditGate.Grant | src/bifaci/credit.rs:128-137 | grants add up to the 64-bit limit and do nothing after close |
| Credit.InputGrantEmitter.Consumed | src/bifaci/cartridge_runtime.rs:525-530 | one more consumed chunk, and one grant for the batch when it is due |
| Credit.InputGrantEmitter.Flush | src/bifaci/cartridge_runtime.rs:559-573 | everything pending leaves as one grant and extends the shared window by as much; nothing pending sends nothing |
| Credit.GrantsComeInBatches | src/bifaci/cartridge_runtime.rs:525-530 | n consumed chunks leave as whole batches, one grant each, with fewer than a batch pending and the window wider by what was granted |
| InputStream.Stream.Recv | src/bifaci/cartridge_runtime.rs:608-628 | `recv` hands over the next item and credits it only if it is a value; on an empty open channel it flushes pending grants before it blocks, once |
| InputStream.Stream.RecvData | src/bifaci/cartridge_runtime.rs:642-650 | `recv_data` hands over the next item and never credits or flushes |
| CreditLink.EveryRunConserves | src/bifaci/cartridge_runtime.rs:523-573 | in every reachable state of every interleaving, the gate, the frames in flight, the item held in reassembly, the delivered items, the pending grants, the grants in flight and the credit lost to uncredited items add up to the sender's window, and the receiver's window is that sum's outer part, shifted by the difference of the windows |
| CreditTheorems.ViolationIff | src/bifaci/cartridge_runtime.rs:3683-3696 | some run of a conforming sender is charged with CREDIT_VIOLATION if and only if its window exceeds the receiver's and the stream is long enough to use the difference |
| CreditTheorems.RunsEnd | src/bifaci/cartridge_runtime.rs:551-573 | no interleaving goes on forever: every run is bounded by a weight fixed by the stream's length |
| CreditTheorems.WhereRunsEnd | src/bifaci/cartridge_runtime.rs:551-573 | every run that cannot go on, and was charged with no violation, has sent the frames up to one place, the same for all interleavings and grant batches, and its reader has taken exactly the items in them, in order |
| CreditLimits.DeliveredWholeIff | src/bifaci/cartridge_runtime.rs:551-573 | a run that cannot go on, without a violation, has delivered the whole stream if and only if before no frame the whole window was owed |
| CreditLimits.RecvDeliversIff | src/bifaci/cartridge_runtime.rs:532-573 | read with `recv`, sound items of any fragment counts arrive whole in every complete run without a violation, under any window and batch mismatch, if and only if the sender's window is at least 2, or is 1 with every item in one frame |
| CreditLimits.RecvDataDeliversIff | src/bifaci/cartridge_runtime.rs:642-650 | read with `recv_data`, in a complete run without a violation, the stream arrives whole if and only if fewer items than the window begin before the last frame |
| CreditLimits.RecvDataScalar | src/bifaci/cartridge_runtime.rs:2574 | a scalar stream read with `recv_data`, as the identity op does, in a complete run without a violation arrives whole if and only if it has at most as many values as the window |
| LinkRefinement.ArrivalRefines | src/bifaci/cartridge_runtime.rs:3682-3770 | the credit model's arrival of a frame is what the demultiplexer does with the real chunk: same window, same reassembly condition, same items and violations, same fragment grants |
| LinkRefinement.TakingRefines | src/bifaci/cartridge_runtime.rs:608-628 | taking an item widens the demultiplexer's window by just what the reader's emitter grants, in at most one grant frame of that size |
| LinkRefinement.BlockingRefines | src/bifaci/cartridge_runtime.rs:614-622 | and so does the flush before the reader blocks |
| LinkRefinement.FragmentStands | src/bifaci/cartridge_runtime.rs:1591-1611 | a fragment cut by `emit_list_item` plays in the demultiplexer the part the credit model gives the frame at its place in the item |
| LinkRefinement.RunFollows | src/bifaci/cartridge_runtime.rs:3682-3770 | any run of the credit model without a violation is a run of the demultiplexer over the real chunks with the reader's grants woven in, whose sender keeps to its window |
| CreditedDelivery.CreditedSequenceArrives | src/bifaci/cartridge_runtime.rs:3719-3754 | values emitted one by one on a sequence stream by a sender inside its window are handed over one by one, each with its own metadata, under every interleaving of sends, arrivals, reads and grants in which the frames arrive |
| CreditedDelivery.CreditedScalarArrives | src/bifaci/cartridge_runtime.rs:684-703 | and any mix of calls on a scalar stream collects to the bytes of everything said |
| CreditedDelivery.RecvGetsEverything | src/bifaci/cartridge_runtime.rs:551-573 | with `recv` and a sender's window of at least 2, inside the receiver's, every run that cannot go on is one in which they all arrive |
| Output.StreamCore.CoalesceAppend | src/bifaci/cartridge_runtime.rs:1270-1287 | appending to the shared buffer yields the batch when its size or the age of its oldest byte is due, and keeps everything otherwise |
| Output.StreamCore.WriteBatch | src/bifaci/cartridge_runtime.rs:1520-1531 | a batch leaves as pieces of at most `max_chunk`, one credit and one number each, up to the first refusal of the gate |
| Coalescing.AppendIs | src/bifaci/cartridge_runtime.rs:1263-1298 | with each waiting byte stamped with its time, an append ships everything exactly when 4096 bytes wait or the first has waited 20 ms |
| Coalescing.CallsHold | src/bifaci/cartridge_runtime.rs:1263-1298 | through any calls the buffer and its age are those of the bytes appended since the last shipment, and always fewer than 4096 |
| Coalescing.BatchIsCut | src/bifaci/cartridge_runtime.rs:1520-1531 | every piece of a batch but the last has `max_chunk` bytes, and the last at least one |
| Coalescing.ItemIsCut | src/bifaci/cartridge_runtime.rs:1591-1611 | and so has every fragment of an item |
| OutputStreams.OutputStream.Start | src/bifaci/cartridge_runtime.rs:1861-1885 | a stream starts once, in one mode; a second start is refused and sends nothing |
| OutputStreams.OutputStream.Write | src/bifaci/cartridge_runtime.rs:1504-1514 | `write` refuses the wrong mode without effect, and otherwise buffers or ships as its specification says |
| OutputStreams.OutputStream.Flush | src/bifaci/cartridge_runtime.rs:1534-1540 | `flush` ships all that is buffered |
| OutputStreams.OutputStream.EmitListItem | src/bifaci/cartridge_runtime.rs:1591-1611 | one item leaves as its encoding cut at `max_chunk`, metadata on the first frame only |
| OutputStreams.OutputStream.EmitCbor | src/bifaci/cartridge_runtime.rs:1681-1737 | each kind of value is flushed, split, opened up or buffered as the specification of its arm says, gate failures included |
| OutputStreams.OutputStream.Close | src/bifaci/cartridge_runtime.rs:2059-2074 | `close` acts once: it ships the buffered tail and then STREAM_END, with the chunk count of a bounded stream |
| OutputStreams.StreamSender.EmitCbor | src/bifaci/cartridge_runtime.rs:1163-1182 | a detached sender shares buffer, numbers and gate with its stream; every value but bytes flushes first and goes out whole |
| TextSplit.SplitIsExact | src/bifaci/cartridge_runtime.rs:1694-1715 | text is cut into pieces of valid text of at most `max_chunk` bytes whose concatenation is the text, if and only if every character fits; otherwise the pieces end just before the first character that does not |
| TextSplit.NextPiece | src/bifaci/cartridge_runtime.rs:1694-1711 | the search for the cut finds the longest run of characters that fits |
| Lossless.CallsAreLossless | src/bifaci/cartridge_runtime.rs:1681-1737 | for any mix of successful `write`, `flush`, value and sender calls whose arrays are in place, with age flushes anywhere, what was sent followed by what is buffered says what the calls said, in order, and frames are numbered on without a gap |
| Lossless.CallsLoseNothing | src/bifaci/cartridge_runtime.rs:1681-1737 | with arrays in place or not, nothing is lost or said twice: what was sent and what is buffered are together the same tokens |
| Lossless.EntriesArePairs | src/bifaci/cartridge_runtime.rs:1722-1731 | a map is sent as its pairs in order, each key before its value |
| Lossless.WholeStream | src/bifaci/cartridge_runtime.rs:2059-2108 | a whole scalar stream whose arrays are in place has chunks 0 to n - 1, a bounded STREAM_END that tells n, and the content said |
| Lossless.WholeSequence | src/bifaci/cartridge_runtime.rs:1591-1611 | a whole sequence stream is nothing but the fragments of its items, numbered from 0, and a STREAM_END that tells their number if it is bounded |
| Lossless.ArrayKeepsItsPlaceIff | src/bifaci/cartridge_runtime.rs:1716-1721 | any array keeps its place in the stream if and only if its content before the buffered bytes is the same as its content after them |
| Lossless.MixedArrayKeepsItsPlaceIff | src/bifaci/cartridge_runtime.rs:1716-1721 | with anything but bytes in it, that is if and only if the buffer is empty |
| Lossless.ArrayOvertakesBytes | src/bifaci/cartridge_runtime.rs:1716-1721 | on a fresh stream, one byte written and another emitted in an array: the second is sent first |
| EndToEnd.CollectBytes | src/bifaci/cartridge_runtime.rs:684-703 | `collect_bytes` gives the concatenation of the values' bytes, or the first error, and refuses unbounded streams |
| Integrity.CollectIs | src/bifaci/cartridge_runtime.rs:684-703 | if all that was delivered is data the result is the values' bytes in order, otherwise the first error delivered |
| Integrity.FailureIsNeverCollected | src/bifaci/cartridge_runtime.rs:684-703 | a stream on which a chunk was spoiled, the credit violated, an item cut short or an ERR received never collects to bytes, whatever follows |
| EndToEnd.ScalarStreamArrives | src/bifaci/cartridge_runtime.rs:684-703 | any mix of successful calls on a scalar stream whose arrays are in place, framed and passed through the demultiplexer, charged or not and with its grants falling anywhere within the window, collects to the bytes of everything said, in order |
| EndToEnd.CreditIsInvisible | src/bifaci/cartridge_runtime.rs:3683-3696 | a stream whose sender keeps to its window is handed over as it would be without any window, wherever the grants fall |
| EndToEnd.SequenceStreamArrives | src/bifaci/cartridge_runtime.rs:3719-3754 | values emitted by successful calls on a sequence stream, at any `max_chunk`, are handed to the reader, charged or not, one by one, each with exactly its own metadata, through START, chunks and STREAM_END |
| Writer.TerminatedFlows.Insert | src/bifaci/stats.rs:208-220 | the memory holds the latest `cap` distinct flows in order of termination; a flow it holds is not moved |
| Writer.SeqAssigner.Assign | src/bifaci/frame.rs:1327-1336 | a flow frame takes the number due to its flow, which goes up by one; no other flow's does |
| Writer.FrameWriter.WriteFrame | src/bifaci/io.rs:523-550 | a written frame goes through the buffer and is flushed at once |
| Writer.FrameWriter.WriteGated | src/bifaci/cartridge_runtime.rs:4369-4406 | a flow frame is suppressed if and only if its flow is among the last `cap` terminated; otherwise it is numbered and written; wire, memory, counters and straggler counts are those of the frames dealt with |
| Writer.FrameWriter.Loop | src/bifaci/cartridge_runtime.rs:5564-5614 | over any timing of arrivals and failures, the wire is the frames taken less the moot ones, numbered; nothing is left unflushed on any branch; stragglers are counted by kind |
| WriterTheorems.NothingLost | src/bifaci/cartridge_runtime.rs:4369-4406 | written and suppressed frames add up to those enqueued, in all and for each kind |
| WriterTheorems.NonFlowFramesPass | src/bifaci/cartridge_runtime.rs:4377-4392 | Hello, Heartbeat, RelayNotify, RelayState, Cancel and Credit frames all reach the wire, unchanged and in order, and none of them is ever suppressed |
| WriterTheorems.TerminatedByFrame | src/bifaci/cartridge_runtime.rs:4393-4406 | a flow counts as terminated exactly when an END or ERR with its request id and routing id is on the wire |
| WriterTheorems.TerminalStands | src/bifaci/cartridge_runtime.rs:4377-4406 | a frame can follow its flow's terminal on the wire only after at least `cap` other terminals |
| WriterTheorems.StragglerIsMootIff | src/bifaci/stats.rs:186-225 | a frame of a terminated flow is suppressed if and only if it is of any other kind than those six and fewer than `cap` flows have been terminated since its own |
| WriterTheorems.FlowOnTheWire | src/bifaci/cartridge_runtime.rs:4369-4406 | a flow still remembered has on the wire exactly its enqueued frames through its first terminal |
| WriterTheorems.FlowIsContiguous | src/bifaci/frame.rs:1301-1345 | and those frames carry 0, 1, 2, ... without a gap |
| WriterTheorems.NumberingRestarts | src/bifaci/frame.rs:1327-1342 | in any run, remembered or not, the frame after a flow's terminal starts again from 0, and the frame after any other goes on by one |
| WriterTheorems.LoopTakes | src/bifaci/cartridge_runtime.rs:5564-5614 | the loop takes every frame in the order they come up to the first turn in which a write or flush fails or the queue is gone, and ends there |
| Scheduler.MainLoop.DrainQueue | src/bifaci/cartridge_runtime.rs:5691-5734 | the queue is started from its head, with a "dequeued" log each, as long as there is room |
| Scheduler.MainLoop.OnHandlerDone | src/bifaci/cartridge_runtime.rs:5741-5765 | a finished handler leaves all the maps and frees its slot; if it had been cancelled, CANCELLED is sent under its routing id |
| Scheduler.MainLoop.OnRequest | src/bifaci/cartridge_runtime.rs:5776-5892 | a REQ is refused for one of three reasons, started, or queued with a "queued" log; an accepted one gets its channel at once |
| Scheduler.MainLoop.OnStreamFrame | src/bifaci/cartridge_runtime.rs:5895-5915 | a stream frame goes to the open request channel, or else to a waiting peer call; a channel without a reader is given up |
| Scheduler.MainLoop.OnLastFrame | src/bifaci/cartridge_runtime.rs:5917-5955 | END and ERR go the same way and close it |
| Scheduler.MainLoop.OnCancel | src/bifaci/cartridge_runtime.rs:5957-6046 | a cancel is ignored, closes open feeds, withdraws a queued request, or aborts a running one with its peer calls, in this order of precedence |
| Scheduler.MainLoop.OnFrame | src/bifaci/cartridge_runtime.rs:5774-6127 | every kind of frame changes the whole state of the loop as its specification says |
| SchedulerActions.RequestDoes | src/bifaci/cartridge_runtime.rs:5776-5892 | a REQ is answered with the ERR of its first fault, or starts at once if there is room and is queued behind the rest with one log if not |
| SchedulerActions.StartsAreAnnounced | src/bifaci/cartridge_runtime.rs:5691-5734 | a first part of the queue is started, in order, with one log each under its own routing id |
| SchedulerActions.HeartbeatAndHelloDo | src/bifaci/cartridge_runtime.rs:6064-6127 | a heartbeat is echoed and a second handshake refused, and nothing else changes |
| SchedulerActions.EveryCancelDoes | src/bifaci/cartridge_runtime.rs:5957-6046 | in every reachable state what a cancel comes to is decided by where its request stands, the feeds opened on it, the cancels before it and its force, and the whole effect is spelled out, the cancels of its peer calls included |
| SchedulerRuns.Play | src/bifaci/cartridge_runtime.rs:5690-6131 | the loop object, driven through any sequence of steps of the loop and of its surroundings, is in the state the transition system reaches |
| SchedulerTerminals.EveryRunKept | src/bifaci/cartridge_runtime.rs:5627-5663 | in every reachable state the running count is the number of handlers, routing ids have the same domain, cancelled ids are running, queued ids are distinct and not running, and each use of an id has been answered according to where its request stands, the deferred CANCELLED exactly if it was aborted |
| SchedulerTerminals.RequestKeptIff | src/bifaci/cartridge_runtime.rs:5776-5892 | a REQ leaves all of that true if and only if nothing is under way for its id, whether it is accepted or refused |
| SchedulerRuns.RequestSoundIff | src/bifaci/cartridge_runtime.rs:5832-5892 | an accepted REQ leaves the counter, the maps and the queue right if and only if its id neither runs nor waits |
| SchedulerOrder.WithinCapacity | src/bifaci/cartridge_runtime.rs:5691-5734 | with a fixed capacity there are never more handlers than it allows, and a request waits at the select only if all slots are taken |
| SchedulerOrder.RequestInLineIff | src/bifaci/cartridge_runtime.rs:5839-5892 | a new request keeps the order of arrival if and only if it does not find both room and a queue |
| SchedulerOrder.FirstComeFirstServed | src/bifaci/cartridge_runtime.rs:5691-5734 | over whole runs, requests started and waiting are together the accepted ones in order of arrival, less those cancelled while waiting, if the capacity is never raised between the top of the loop and the next event |
| SchedulerOrder.InLineThroughoutIff | src/bifaci/cartridge_runtime.rs:5839-5892 | the order of arrival is kept at every moment of a run if and only if no REQ in it finds both room and a queue |
| SchedulerOrder.RaisedCapacityOvertakes | src/bifaci/cartridge_runtime.rs:5839-5843 | a run in which it is raised there, and the third request starts before the second |
| SchedulerInput.InputArrives | src/bifaci/cartridge_runtime.rs:5832-5955 | in every reachable state a request's channel holds exactly what the host sent after its REQ through the first END or ERR, or up to the cancel that took hold, or up to the first frame after its reader was lost, and is open exactly until then |
| SchedulerInput.RepliesArrive | src/bifaci/cartridge_runtime.rs:5895-5955 | in every reachable state a peer call has been sent exactly the input frames with its id that came after it was made, in order, through the first END or ERR or up to the abort of its origin, and waits exactly until then |
| SchedulerInput.QueueingIsTransparent | src/bifaci/cartridge_runtime.rs:5832-5892 | runs in which the host sends the same frames, and the same cancels take hold, give a request the same input, whatever the capacities and the moments of dispatch |
| SchedulerProgress.QueueNeverStalls | src/bifaci/cartridge_runtime.rs:5689-5767 | however the capacity changes, a request waits at the select only behind a handler that runs |
| SchedulerProgress.EveryRequestIsAnswered | src/bifaci/cartridge_runtime.rs:4554-4597 | however a run goes on without the host, it takes no more internal steps than a weight fixed at the start, and when it can take none nothing is queued or running and every request has been answered; on the wire, unless its flow was terminated there before, by at least one END or ERR, the first its handler's own, and by no other while the flow is remembered |
| SchedulerProgress.WindsDown | src/bifaci/cartridge_runtime.rs:5689-5767 | and a run can always be brought to that point |
| SchedulerProgress.SharedIdMiscounts | src/bifaci/cartridge_runtime.rs:5836-5892 | two requests under one id run two handlers under one entry: the bookkeeping rests on fresh ids |
| Answers.FirstAnswerStands | src/bifaci/cartridge_runtime.rs:4377-4406 | on a flow not terminated before, the first terminal sent is the first on the wire, and the only one while the flow is remembered; on a remembered flow terminated before, none gets through |
| Answers.EveryRequestOnTheWire | src/bifaci/cartridge_runtime.rs:5741-5765 | so it is for the last use of every id at every point of every run, reused ids included: an answer shows once the request is over or its handler has concluded, and not before |
| Answers.ExactlyOneTerminal | src/bifaci/cartridge_runtime.rs:5741-5765 | at every point of every run, an id used once on a remembered flow has one terminal on the wire if its request is over or its handler has concluded, and none otherwise; a handler's request gets the handler's own terminal, never the CANCELLED deferred behind it |
| Base64.RuntimeDecode | src/bifaci/binary_signing.rs:206-242 | the loop over 24-bit groups decodes as the group-wise reference does, and refuses exactly the ill-padded and the foreign texts |
| Base64.ValidateKey | build.rs:234-266 | the loop over a wrapping 32-bit buffer computes the bit stream of the sextets, and stops the build for the reason its specification gives |
| Base64.GateMeetsParser | src/bifaci/binary_signing.rs:145-168 | the build gate accepts exactly the trimmed keys the runtime parser accepts, and both read the same 42 bytes in them: the tag, 8 bytes of key number, 32 of key |
| KnownValues.SymbolsAreAlphabet | src/bifaci/binary_signing.rs:206-242 | the symbols are the 64 characters of the standard alphabet in order |
| Base64.RoundTrip | src/bifaci/binary_signing.rs:206-242 | decoding the encoding of section 4 of RFC 4648 of any non-empty bytes gives them back |
| KnownValues.KnownBase64 | src/bifaci/binary_signing.rs:206-242 | the examples in section 10 of RFC 4648 come out as printed there |
| Base64.CanonicalIff | src/bifaci/binary_signing.rs:206-242 | a text the decoder accepts is the encoding of what it decodes to if and only if the bits left over before its padding are zero |
| Base64.StrayBitsAreAccepted | src/bifaci/binary_signing.rs:206-242 | `QR==` is accepted and decodes to the byte whose encoding is `QQ==` |
| Versions.CompareVersions | src/bifaci/cartridge_repo.rs:1356-1373 | less, greater or equal exactly when the zero-padded number lists are, at the first place where they differ |
| Numerals.ParsesIff | src/bifaci/cartridge_repo.rs:1356-1373 | a piece counts as n exactly when it is the decimal numeral of n, below 2^32, after leading zeros and an optional plus |
| Numerals.PartsOfNumerals | src/bifaci/cartridge_repo.rs:1356-1373 | the parts of the numerals of any numbers below 2^32, joined by dots, are those numbers |
| Numerals.PieceCounts | src/bifaci/cartridge_repo.rs:1356-1373 | each piece between dots contributes its number, and one that is not a number nothing |
| Numerals.TenIsNewerThanNine | src/bifaci/cartridge_repo.rs:1356-1373 | `1.9` is older than `1.10` |
| Versions.Trichotomy | src/bifaci/cartridge_repo.rs:1356-1373 | of any two versions exactly one is older, or they are the same |
| Versions.NotOlderTransitive | src/bifaci/cartridge_repo.rs:1356-1373 | being no older is transitive, so that the sort by it is well defined |
| Versions.PrimaryPackage | src/bifaci/cartridge_repo.rs:328-342 | the first installer in the most preferred format on offer for the platform's system; failing all, the first of any; failing that, the legacy one |
| Versions.PrimaryIsOwn | src/bifaci/cartridge_repo.rs:323-342 | a build has a primary package exactly when it ships an installer, and it is one of its own |
| Versions.PrimaryByPlatform | src/bifaci/cartridge_repo.rs:323-342 | on darwin the first pkg, on linux the first deb or else rpm, on windows the first msi or else exe |
| Versions.BuildForHost | src/bifaci/cartridge_repo.rs:404-415 | the first build of the version for the host's platform, if there is one |
| Versions.ResolveForHost | src/bifaci/cartridge_repo.rs:430-474 | incompatible exactly when no version is usable; otherwise the first usable version listed, which no usable version is newer than, with the host's package from it, and compatible exactly when it is the one called latest |
| Versions.OutdatedAlthoughUsableIff | src/bifaci/cartridge_repo.rs:454-462 | with a usable latest version the outcome is "outdated" if and only if some usable version stands before it in the list |
| Versions.PrecededByNewerOrEqual | src/bifaci/cartridge_repo.rs:1418-1419 | such a version is newer than the latest or equal to it, and a newer one always stands before |
| Versions.EqualVersionsDependOnTheMap | src/bifaci/cartridge_repo.rs:1418-1419 | with versions `1` and `1.0`, both usable, and latest `1.0`, both listings are sorted, one gives compatible and the other outdated |
| Handlers.FindHandler | src/bifaci/cartridge_runtime.rs:4770-4802 | nothing exactly when the URN does not parse or nothing is dispatchable; otherwise the handler of a dispatchable key that no other outranks, refinements before fallbacks and nearer before farther |
| Handlers.BestBySpecificity | src/bifaci/cartridge_runtime.rs:4779-4800 | the best keys are the least specific of those at least as specific as the request, or the most specific where there is none |
| Handlers.SameRankOnEveryWalk | src/bifaci/cartridge_runtime.rs:4779-4800 | the distance of the handler chosen is the same for every order of the handler map |
| Handlers.OrderIndependentIff | src/bifaci/cartridge_runtime.rs:4779-4800 | the handler chosen is the same for every order if and only if all keys of the best distance name one handler |
| Handlers.TiedKeysDependOnTheWalk | src/bifaci/cartridge_runtime.rs:4779-4800 | two keys at one distance with different handlers: each is chosen when walked first |

## Left out

- Demux.MultiDemux.OnStart: does not model the file-path and live-feed arms of the demultiplexer, nor a handler that drops its input package.
- Demux.MultiDemux.Handle: leaves out the same arms, which are file system and device plumbing.
- Demux.MultiDemux.Run: leaves out the same arms. A cancel sees only how many feeds of a request are open.
- The command-line payload builders.
- The blocking twins of the asynchronous calls (`blocking_write`, `blocking_flush`, `blocking_close`, `blocking_emit_list_item`): same framing, different waiting.
- Log, progress and keepalive frames of an output stream, heartbeat metadata, memory probes and the drop counters: telemetry.
- Handler panics, process shutdown after the loop ends, and one output stream used from two threads at once.
- CBOR beyond definite lengths: indefinite-length items, unassigned simple values, the nesting limit and the number normalization of the CBOR library. A value out of range of an encoding head is excluded by `Encodable`.
- The credit router's maps: a gate is reached directly.
- Output.StreamCore.Acquire: foretells the gate, as the number of credits it will still give before it closes, instead of waiting; `Credit` models the gate itself.
- `max_chunk` is at least 1 in the sender's contracts: with 0 the loops that cut bytes do not advance.
- Calls after `close`: `write` does not look at `closed`, and the theorems about whole streams are for calls before it.
- CreditLink.ArriveFrame: after a violation in the middle of an item it does not follow what the remaining fragments decode to.
- EndToEnd.ScalarStreamArrives: for calls whose arrays are in place, as `Lossless.ArrayKeepsItsPlaceIff` makes it precise; without that, `Lossless.CallsLoseNothing` holds. The sender keeps to the receiver's window, which `CreditedDelivery.CreditedScalarArrives` derives from the windows.
- CreditTheorems.WhereRunsEnd: promises nothing for a run with a violation; `CreditTheorems.ViolationIff` says when there can be one.
- Attribution classes and argument names of ERR frames, and the texts of messages; a frame carries its LOG level or ERR code.
- Writer.SeqAssigner.Assign: does not model the overflow of a 64-bit counter.
- SchedulerTerminals.EveryRunKept: for runs in which the host uses an id only when nothing is under way for it, which `SchedulerTerminals.RequestKeptIff` shows to be needed, and peer calls have ids of their own.
- Answers.ExactlyOneTerminal: for ids used once whose flow the gate still remembers; `Answers.EveryRequestOnTheWire` covers the others, and `WriterTheorems.StragglerIsMootIff` says exactly how long a flow is remembered.
- The `biased` order of the select: the model lets either side go first, so the theorems hold for both.
- Trimming of keys: the decoders and the gate are compared on trimmed strings, as bytes. Lowercase hex of the key id.
- The sort itself: `NewestFirst` describes any listing of the versions a correct sort by the proved order may leave.
- URN parsing, dispatchability and specificity are parameters of `Handlers.FindHandler`, and whether a URN has a handler is one of the main loop.
- Signature verification, network fetching, search and filters, directory discovery and manifests.
