# EAGine message bus: verified model of its transfer protocols

This project models the parts of the EAGine message bus that move data between endpoints,
and proves what they promise. It has four groups of modules.

**The blob transfer protocol.** A large byte string (a blob) is sent as fragments. The sender
keeps a list of byte intervals still to be sent, the receiver one of intervals received; both
are the two halves of one double buffer, rebuilt by a merge loop (`PendingBlobs`). `Intervals`
defines what inserting an interval means and shows it to be set union on canonical lists;
`MergeSpec` says which store and check calls a merge makes and what they do to a flat buffer;
`TransferSpec` holds the decisions of both ends. `Transfer` joins a sender and a receiver by a
channel that loses, duplicates and reorders, either of which may give up at any time, and covers
every run of them. `StreamSink` and `ChunkSink` are the other two receivers of fragments,
`StreamStalls` says when the first of them stops early, `OutgoingBlobs` the sending and
`BlobManipulators` the receiving half with many blobs at once; `OutgoingRepair` and
`BlobDelivery` prove that requested bytes are sent again and that received blobs are handed over.

**Outbox and send machine.** `Bits` and `Outbox` model packing queued messages into a block and
removing them later by a 64-bit set; `SendMachine` the connection that drives it with a flag
and a countdown, through failures and reconnects; `Datagram` the server connection that packs
many endpoints in turn, and `DatagramSending` the countdown driven by it.

**Queues and the direct connection.** `Queues` models the message storage and the priority
queue, `Direct` the in-process connection over double buffers, in every interleaving.

**Two inverse pairs.** `MqttTopics` (printing, filtering and parsing topics) and `NodeRows` (the
rows of the monitor's tree view).

## Findings

Places where the code does less than one would expect, each with a lemma that says exactly when:

- A fragment that overlaps a second received interval stores bytes the receiver already holds.
  The flat buffer and the chunks do not mind, but a stream sink can then stop for good before
  the end of a blob that was received completely. How far a merge takes any sink that is not
  stalled, and the exact guard under which it stalls it, says `MergeStallsIff`; a run passes on
  all it received in one piece from the start exactly when no arrival meets that guard
  (`CompletePassedOnIff`), and a blob can lose its end exactly when it has four bytes or more
  (`StallPossibleIff`). The overlap need not do harm at once: the piece it leaves behind in the
  map stays for good and keeps later pieces from following on (`LeftoverForever`,
  `LeftoverStallsIff`), so that a later fragment with no second overlap loses the end
  (`LeftoverCanStall`). While the sink is tight the interval list alone decides
  (`TightStallsIff`). Bytes held in further touched intervals are overwritten before they are
  "checked", so a merge reports a mismatch only for the first touched interval
  (`MergeRunsOnBuffer`).
- `process_resend` takes any range: a request that reaches past the end of the blob leaves a
  todo list outside it (`AfterResendGoodIff`, `ResentGoodIff`), and unless it swallows the whole
  list it keeps the sender from sending what it had left as long as no further request arrives
  (`ResendFinishesIff`, `ResentFinishesIff`, `JammedForever`); a further request undoes such a jam
  exactly when it reaches from the first todo interval to the last (`UnjamsIff`).
- `received_everything` is true of a blob of known size with an empty done list. No run fed by
  live blobs reaches such a state (`CompleteIff`, `ManipulatorIsSafe`).
- The fallback lookup by target ids replaces a total size that is already known
  (`TotalChangesIff`), while the buffer keeps its size, so that a complete second blob is handed
  over as a buffer of the size of the first (`TotalCanChange`); with live blobs of distinct
  ids this does not happen (`TotalsAreStable`).
- A datagram server shares one countdown among its endpoints. When neighbours in turn pack
  different numbers of messages, fewer than 64 and none critical, nothing is ever sent after a
  first block (`SendEverBeginsIff`,
  `TwoEndpointsStall`); the bound of `BoundedFlush` is that of a connection with one endpoint.
- A fetch drops a refused message that arrives with the hop count used as the removal mark
  (`FetchKeepsRefusedIff`).
- An instance or node whose own id is 0 cannot be found again once selected
  (`SelectedRowComesBackIff`), and `index` of a negative row fails an assertion as soon as there
  is an instance (`NodeListViewModel.Index`).
- A transfer whose very first fragments are all lost is not repaired, since only a receiver that
  has seen a fragment asks; nor is one whose sender has erased its blob (`RecoverableIff`).

## Assumptions

- Fragments are not empty where a sink asserts it; a merge itself is modelled for empty ones too.
- The size of a blob is fixed while it is sent and its source is prepared. Size-prefix framing is
  a parameter with two laws, a frame can be read back in front of anything and zeros hold no
  frame; `Outbox.FramingExists` gives an instance.
- `BlobManipulators.Genuine` and `GoodWorld` say what the incoming fragments may be in the
  results about runs: pieces of at most one live blob at a time per message id, source and target
  blob id, with source blob ids from 1 on; `BlobDelivery.LiveAlone` adds that no other live blob
  of the same source has its blob id under another message id, since fragments of one of the two
  would be dropped (`PushDelivers`). `ProcessIncoming` itself takes any fragment, and
  `PushIncomingFragment` any whose offset and total size are not negative.
- Timeouts, send completions, lost messages and handler answers are events or parameters.

## Model

| member | source | states |
|---|---|---|
| `PendingBlobs.PendingBlob.MergeFragment` | source/modules/eagine/core/blobs_impl.cpp:444-507 | For any sorted, separated done list and any fragment: the new list is the reference insertion, and the store and check calls, in order, are those of `MergeSpec.MergeCalls`; the returned flag is the conjunction of their results on the buffer |
| `PendingBlobs.PendingBlob.MergePart` | source/modules/eagine/core/blobs_impl.cpp:457-497 | One turn of that loop, branch by branch: list, flag and calls |
| `PendingBlobs.PendingBlob.MergeTodoPart` | source/modules/eagine/core/blobs_impl.cpp:523-555 | One turn of the loop over the todo intervals, branch by branch: the output list and the flag are those of the step function that both merge loops share |
| `PendingBlobs.PendingBlob.MergeResendRequest` | source/modules/eagine/core/blobs_impl.cpp:509-560 | The todo list becomes the insertion of the requested range (an end of 0 means the blob's end); an empty range changes nothing |
| `PendingBlobs.PendingBlob.ProcessFinishedOutgoing` | source/modules/eagine/core/blobs_impl.cpp:1071-1132 | The fragment starts at the begin of the last todo interval, is what the source has there, is not clipped to the interval; a used-up interval is dropped, an empty read changes nothing |
| `PendingBlobs.PendingBlob.Outgoing` | source/modules/eagine/core/blobs_impl.cpp:994-1022 | A pushed blob starts with one todo interval, its whole extent |
| `PendingBlobs.BufferBlobIo.FetchFragment` | source/modules/eagine/core/blobs_impl.cpp:70-75 | Reads what the source has at the offset, at most as much as fits the room, and less only when that reaches the source's end |
| `PendingBlobs.BufferBlobIo.StoreFragment` | source/modules/eagine/core/blobs_impl.cpp:77-87 | Stores all of the data in place and nothing else if and only if it fits behind the offset or is empty; else reports failure and changes nothing |
| `PendingBlobs.BufferBlobIo.CheckStored` | source/modules/eagine/core/blobs_impl.cpp:89-93 | Succeeds if and only if the data is empty, or lies inside the buffer and equals what is held at the offset |
| `PendingBlobs.LoopComputesInsert` | source/modules/eagine/core/blobs_impl.cpp:444-560 | Both merge loops, with their flag and the insertion after them, compute the recursive reference insertion |
| `PendingBlobs.LoopIssuesMergeCalls` | source/modules/eagine/core/blobs_impl.cpp:457-501 | The loop issues exactly the calls of the recursive description, in order |
| `Intervals.InsertCovers` | source/modules/eagine/core/blobs_impl.cpp:444-560 | The list after a merge covers exactly the old bytes and those of the inserted interval: set union |
| `Intervals.InsertSeparated` | source/modules/eagine/core/blobs_impl.cpp:444-560 | A sorted list of strictly separated intervals stays one |
| `Intervals.InsertCanonicalIff` | source/modules/eagine/core/blobs_impl.cpp:444-507 | No interval of the result is empty if and only if the fragment is non-empty or touches a received interval |
| `Intervals.InsertBounded` | source/modules/eagine/core/blobs_impl.cpp:444-560 | Intervals inside the blob stay inside it |
| `Intervals.CanonicalUnique` | source/modules/eagine/core/blobs_impl.cpp:444-507 | Two canonical lists that cover the same bytes are equal, so union and canonical form determine the merge result |
| `Intervals.SizeIsCoverage` | source/modules/eagine/core/blobs_impl.cpp:355-369 | Summing interval lengths counts the covered bytes |
| `Intervals.SinglePartIffCoversAll` | source/modules/eagine/core/blobs_impl.cpp:411-419 | All bytes are covered if and only if there is a single interval from 0 to the end |
| `MergeSpec.MergeRunsOnBuffer` | source/modules/eagine/core/blobs_impl.cpp:444-507 | Exact effect of any merge on a flat buffer: the fragment's bytes except where the first touched interval was held; it reports success if and only if the fragment repeats those held bytes |
| `MergeSpec.MergeCallsFaithful` | source/modules/eagine/core/blobs_impl.cpp:444-507 | Stores and checks carry only bytes of the fragment at their own place, only held bytes are checked, and every byte not held before is stored |
| `MergeSpec.MergeKeepsSync` | source/modules/eagine/core/blobs_impl.cpp:444-507 | A piece of the blob never fails a check and leaves the buffer equal to the blob on all received intervals |
| `TransferSpec.AfterSendGood` | source/modules/eagine/core/blobs_impl.cpp:1071-1101 | Sending a fragment keeps the todo list sorted, separated, without empty intervals, inside the blob |
| `TransferSpec.AfterSendCovers` | source/modules/eagine/core/blobs_impl.cpp:1071-1101 | Still to be sent is exactly what was to be sent and is not in the fragment just taken |
| `TransferSpec.AfterSendShrinks` | source/modules/eagine/core/blobs_impl.cpp:1071-1101 | The number of unsent bytes falls by exactly the overlap of fragment and interval, which is positive |
| `TransferSpec.SendsFinish` | source/modules/eagine/core/blobs_impl.cpp:1071-1101 | Without resend requests as many sends as there are unsent bytes finish the blob, also from a single interval that reaches past the end |
| `TransferSpec.AfterResendGoodIff` | source/modules/eagine/core/blobs_impl.cpp:907-928 | A resend request keeps the todo list good if and only if it is empty or stays inside the blob; the range is not checked by the code |
| `TransferSpec.ResendFinishesIff` | source/modules/eagine/core/blobs_impl.cpp:907-928 | After a request to a good list some number of sends finishes the blob if and only if the request is empty, ends inside the blob, meets an idle sender, or begins no later than the first todo interval ends |
| `TransferSpec.JammedForever` | source/modules/eagine/core/blobs_impl.cpp:1086-1125 | Behind a last interval that reaches past the end of the blob, and while no further request arrives, any number of sends leaves every interval in front of it unsent and the blob unfinished |
| `TransferSpec.UnjamsIff` | source/modules/eagine/core/blobs_impl.cpp:907-928 | One further request to such a jammed list lets the sender finish if and only if it is not empty, begins no later than the first todo interval ends and ends no earlier than the last one begins; any other leaves the list jammed |
| `TransferSpec.SentEverythingIffEmpty` | source/modules/eagine/core/blobs_impl.cpp:403-409 | `sent_everything` holds exactly when the todo list is empty |
| `TransferSpec.ReceivedEverythingIff` | source/modules/eagine/core/blobs_impl.cpp:411-419 | Once something was received, `received_everything` holds exactly when all of the blob is covered |
| `TransferSpec.ResendAsksForFirstGap` | source/modules/eagine/core/blobs_impl.cpp:610-631 | The requested range is non-empty, at most 2*max/3 long, starts at the first missing byte, lies in the first gap, and ends before it only at that length |
| `TransferSpec.RepairProgress` | source/modules/eagine/core/blobs_impl.cpp:657-675 | An undisturbed round of request, resend and merge keeps all received bytes and strictly lowers the missing count of an incomplete list; a complete list is left as it is |
| `TransferSpec.RepairCompletes` | source/modules/eagine/core/blobs_impl.cpp:657-675 | At most as many rounds as bytes are missing complete the blob |
| `Intervals.MissingAtMost` | source/modules/eagine/core/blobs_impl.cpp:657-675 | No more bytes are missing than the blob has, so at most as many rounds as its size are needed |
| `Transfer.TransferIsSafe` | source/modules/eagine/core/blobs_impl.cpp:722-841 | Over every run with loss, duplication, reordering, requests and timeouts: the buffer agrees with the blob on the done list, every check succeeds, every content handed over is the blob |
| `Transfer.SenderListIsGood` | source/modules/eagine/core/blobs_impl.cpp:509-560 | Over every run the todo list stays sorted, separated, non-empty-interval and inside the blob, and `sent_everything` means it is empty |
| `Transfer.BytesAreConserved` | source/modules/eagine/core/blobs_impl.cpp:1071-1132 | Until the first reception ends every byte is to be sent, in flight, lost, or received, or the sender was erased and never sent it |
| `Transfer.LosslessRunCompletes` | source/modules/eagine/core/blobs_impl.cpp:411-419 | A run that lost nothing and has nothing in flight has received everything if and only if all that is left unsent was received anyway; always when all was sent, not when an erased sender left a byte unsent that did not arrive |
| `Transfer.Finish` | source/modules/eagine/core/blobs_impl.cpp:907-928 | While the sender has its blob, from every reachable state whose receiver has seen a fragment some continuation hands over the blob |
| `Transfer.FinishFromFlight` | source/modules/eagine/core/blobs_impl.cpp:722-841 | Once the sender is gone, delivering what is in flight completes the blob if that carries every missing byte |
| `Transfer.RecoverableIff` | source/modules/eagine/core/blobs_impl.cpp:583-608 | A run can still be continued to a handover of the blob if and only if it is not stuck; without the sender, if and only if every missing byte is in flight and the blob not too big |
| `Transfer.StuckForever` | source/modules/eagine/core/blobs_impl.cpp:583-608 | A stuck run never hands over anything again, whatever happens |
| `Arrivals.MergedStoresAll` | source/modules/eagine/core/blobs_impl.cpp:444-507 | Over any run of arriving blob pieces every received byte was stored, and only bytes of the blob at their own offsets were passed to the sink |
| `StreamSink.BlobStreamIo.StoreFragment` | source/modules/eagine/core/blobs_impl.cpp:165-215 | In-order data goes out at once with all waiting pieces that follow without a gap, as one signal; other data waits in the map under its offset |
| `StreamSink.StoreSafe` | source/modules/eagine/core/blobs_impl.cpp:165-215 | Storing a blob piece whose first byte is new: the offset assertion holds, what was passed on is still the beginning of the blob, and what waits is part of it |
| `StreamSink.MergeIntoStream` | source/modules/eagine/core/blobs_impl.cpp:444-507 | Merging any non-empty blob piece never violates the sink's assertions and keeps what was passed on a prefix of the blob; without a second overlap the sink stays tight |
| `StreamSink.TightIffNoSecondOverlap` | source/modules/eagine/core/blobs_impl.cpp:165-215 | A merge keeps the waiting pieces disjoint and everything in line passed on if and only if no received interval after the first touched one begins before the fragment's end |
| `StreamSink.TightMeansLeading` | source/modules/eagine/core/blobs_impl.cpp:165-215 | A tight sink has passed on exactly the interval that starts at 0 |
| `StreamSink.StreamPassesOnTheBlob` | source/modules/eagine/core/blobs_impl.cpp:165-215 | Over every run of blob pieces the sink's assertions hold at every store and the signals are a prefix of the blob, in order, at their offsets; without second overlaps they reach the end of the leading interval, and all of a complete blob |
| `StreamStalls.MergeStallsIff` | source/modules/eagine/core/blobs_impl.cpp:165-215 | For any receiver state whose sink is not stalled and any piece of the blob: the sink passes on exactly up to `PassesTo`, which only the part of the fragment behind the leading interval's end and the pieces waiting for it decide, and it is stalled afterwards if and only if the fragment reaches over the leading interval's end and that is before the new leading interval's end |
| `StreamStalls.TightStallsIff` | source/modules/eagine/core/blobs_impl.cpp:165-215 | For a tight sink an in-line fragment leaves a piece behind if and only if it overlaps a second received interval, and stalls the sink if and only if in addition the leading interval now ends beyond the fragment |
| `StreamStalls.LeftoverForever` | source/modules/eagine/core/blobs_impl.cpp:186-205 | A waiting piece that begins before what was passed on is never erased and stays at the front of the map, whatever pieces of the blob arrive |
| `StreamStalls.LeftoverStallsIff` | source/modules/eagine/core/blobs_impl.cpp:186-205 | With such a piece in the map an in-line fragment is passed on up to its own end and nothing after it, so the sink stalls if and only if the leading interval then ends beyond the fragment, with or without a second overlap |
| `StreamStalls.LeftoverCanStall` | source/modules/eagine/core/blobs_impl.cpp:186-205 | Every blob of six or more bytes has a run after which the sink is in step but not tight, and a last fragment without a second overlap that completes the blob while its end is not passed on |
| `StreamStalls.StalledForever` | source/modules/eagine/core/blobs_impl.cpp:165-215 | Once the byte the sink waits for was received, no further pieces of the blob make it pass on anything |
| `StreamStalls.CompletePassedOnIff` | source/modules/eagine/core/blobs_impl.cpp:165-215 | After any run of blob pieces the whole leading interval, so all of a complete blob, was passed on if and only if no arrival met the guard of `MergeStallsIff` in the state before it |
| `StreamStalls.StreamCanStall` | source/modules/eagine/core/blobs_impl.cpp:478-495 | Every blob of four or more bytes has a run of pieces that completes it while its end is not passed on, by this run or any continuation of it |
| `StreamStalls.StallPossibleIff` | source/modules/eagine/core/blobs_impl.cpp:478-495 | A blob can lose its end in this way if and only if it has four bytes or more |
| `ChunkSink.BlobChunkIo.StoreFragment` | source/modules/eagine/core/blobs_impl.cpp:272-312 | Every byte of the data is at its place, every other stored byte is unchanged, every chunk is exactly as long as needed |
| `ChunkSink.StoredByDivMod` | source/modules/eagine/core/blobs_impl.cpp:272-312 | Byte k of the data lies in chunk (offset+k)/size at position (offset+k)%size |
| `ChunkSink.SoundAndCompleteIsSplit` | source/modules/eagine/core/blobs_impl.cpp:272-335 | Once every byte was stored the chunks are the blob cut into pieces of the chunk size, whatever the order and overlaps |
| `ChunkSink.ChunksAreTheBlob` | source/modules/eagine/core/blobs_impl.cpp:318-335 | The chunks handed over concatenate to the blob, all but the last have the full size, and there are ceil(total/size) of them |
| `ChunkSink.ArrivalsDeliver` | source/modules/eagine/core/blobs_impl.cpp:444-507 | Blob pieces that arrive in any order make the merges store every byte of the blob, and only its bytes, as soon as they cover it |
| `ChunkSink.SplitAt` | source/modules/eagine/core/blobs_impl.cpp:272-312 | Chunk i holds the blob from i times the size on, and exists exactly when the blob reaches that far |
| `OutgoingBlobs.Sender.ProcessOutgoing` | source/modules/eagine/core/blobs_impl.cpp:1134-1154 | Gives min(max, n) turns to consecutive blobs by the running index, which advances by as many, and returns the fragments sent: at most max, at most one of each blob, each of an unfinished one, from a byte still to be sent on, as long as the room or to the blob's end; for good lists a byte is still to be sent afterwards if and only if it was and no returned fragment of its blob has it |
| `OutgoingBlobs.Sender.ProcessFinishedOutgoing` | source/modules/eagine/core/blobs_impl.cpp:1071-1132 | One turn of an unfinished blob: exactly one such fragment, of that blob, and no other blob changes |
| `OutgoingBlobs.ServeAccounts` | source/modules/eagine/core/blobs_impl.cpp:1071-1154 | Over any number of turns no byte leaves a todo list unsent: it is still there if and only if it was and no fragment of its blob had it |
| `OutgoingBlobs.EveryByteIsSent` | source/modules/eagine/core/blobs_impl.cpp:1134-1154 | After as many calls as give each blob one turn for each byte of the largest unsent rest, every byte that was to be sent was in a returned fragment of its blob |
| `OutgoingBlobs.Sender.PushOutgoing` | source/modules/eagine/core/blobs_impl.cpp:994-1022 | A non-empty blob gets the next id and a todo list of its whole extent; an empty one is not queued and gets 0 |
| `OutgoingBlobs.Sender.NextBlobId` | source/modules/eagine/core/blobs_impl.cpp:986-992 | Ids count up and wrap around past 0 |
| `OutgoingBlobs.Sender.ProcessResend` | source/modules/eagine/core/blobs_impl.cpp:907-928 | For separated lists: the first blob with the id has exactly its old bytes and the requested ones to send (an end of 0 means the blob's end), its id, size and room stay, and every other blob is as before; an unknown id changes nothing |
| `OutgoingBlobs.RequestIsServed` | source/modules/eagine/core/blobs_impl.cpp:907-928 | A request inside a known blob of a sender with good lists is served: enough calls return all its bytes in fragments of that blob, whatever else is queued |
| `OutgoingBlobs.IdsRepeatIff` | source/modules/eagine/core/blobs_impl.cpp:986-992 | Ids are never 0 and two pushes get the same id if and only if a multiple of 2^32-1 pushes lies between them |
| `OutgoingBlobs.ResentGoodIff` | source/modules/eagine/core/blobs_impl.cpp:907-928 | A request keeps all todo lists good if and only if it is empty, for an unknown blob, or inside the blob it names |
| `OutgoingBlobs.ResentFinishesIff` | source/modules/eagine/core/blobs_impl.cpp:907-928 | After a request every blob of the sender is eventually sent if and only if the request is for an unknown blob or jams no todo list: it is empty, ends inside the blob, meets an empty list, or begins no later than the first interval ends |
| `OutgoingBlobs.TurnsOnce` | source/modules/eagine/core/blobs_impl.cpp:1134-1154 | In up to n turns exactly the blobs that far ahead of the index get one turn each |
| `OutgoingBlobs.RoundServesAll` | source/modules/eagine/core/blobs_impl.cpp:1134-1154 | n turns give each of n blobs exactly one, from any index |
| `OutgoingBlobs.EveryBlobAdvances` | source/modules/eagine/core/blobs_impl.cpp:1134-1154 | Within any ceil(n/m) consecutive calls every unfinished blob sends something |
| `OutgoingBlobs.RoundsSendAll` | source/modules/eagine/core/blobs_impl.cpp:1134-1154 | Without resend requests as many rounds as the largest blob has unsent bytes send every blob completely |
| `OutgoingRepair.SenderRepairProgress` | source/modules/eagine/core/blobs_impl.cpp:657-675 | A repair round through the queue of a sender of many blobs, each with anything left to send: nothing received is lost, all lists stay good, and an incomplete blob misses strictly fewer bytes |
| `OutgoingRepair.SenderRepairCompletes` | source/modules/eagine/core/blobs_impl.cpp:657-675 | With enough turns in each, as many such rounds as bytes are missing complete the blob |
| `BlobManipulators.BlobManipulator.PushIncomingFragment` | source/modules/eagine/core/blobs_impl.cpp:722-841 | What a fragment does, without the lookup functions: the first pending blob with its source ids takes it in when message id and total size agree, else nothing changes; if none has them, the first one expected under its target ids takes over its ids and size and takes it in; else a new blob gets a buffer of its size, unless it is too big or from a broadcast. Taking in means that the done list gains the fragment's bytes, the blob keeps its own target, and that gets calls that store each new byte, or the bytes themselves; no other blob changes |
| `BlobManipulators.PushedTakes` | source/modules/eagine/core/blobs_impl.cpp:722-841 | The same for every list of pending blobs and every fragment of non-negative offset and size |
| `BlobManipulators.BlobManipulator.ProcessIncoming` | source/modules/eagine/core/blobs_impl.cpp:843-899 | A fragment is let in if and only if it begins inside the total size and ends no later; all others change nothing |
| `BlobManipulators.BlobManipulator.ExpectIncoming` | source/modules/eagine/core/blobs_impl.cpp:698-720 | Adds a pending blob of unknown size for the caller's sink |
| `BlobManipulators.BlobManipulator.CancelIncoming` | source/modules/eagine/core/blobs_impl.cpp:946-962 | Removes exactly the first pending blob with the target id, if any |
| `BlobManipulators.BlobManipulator.FetchAll` | source/modules/eagine/core/blobs_impl.cpp:1181-1216 | Hands over every complete blob in order, keeps the others in order, returns how many were removed |
| `BlobManipulators.PushDelivers` | source/modules/eagine/core/blobs_impl.cpp:722-841 | A piece of a live blob adds exactly its bytes to the done list of the blob with its ids and touches no other; it is dropped exactly when the blob is too big or another message id uses its source ids |
| `BlobManipulators.FetchPartitions` | source/modules/eagine/core/blobs_impl.cpp:1181-1216 | Every pending blob is either kept or handed over: handed over exactly when complete |
| `BlobManipulators.TotalChangesIff` | source/modules/eagine/core/blobs_impl.cpp:733-764 | A known total size changes if and only if no pending blob has the fragment's source ids, the blob is the first with its target ids, and the sizes differ |
| `BlobManipulators.TotalCanChange` | source/modules/eagine/core/blobs_impl.cpp:742-764 | For any two blobs of different size sent under the same target ids: after one byte of the first, the whole second one resizes the pending blob, counts as complete, and is handed over as a buffer of the size of the first |
| `BlobManipulators.ResizeSpoilsBuffer` | source/modules/eagine/core/blobs_impl.cpp:742-776 | A buffer keeps its size whatever arrives, so a changed total size no longer fits it |
| `BlobManipulators.ManipulatorIsSafe` | source/modules/eagine/core/blobs_impl.cpp:698-962 | Over every run fed by live blobs, which may come and go as long as nothing is left of a blob when its ids are used again: each pending blob has the right size, a non-empty done list inside it and agrees with its blob; everything handed over is a whole blob live at that time |
| `BlobManipulators.CompleteIff` | source/modules/eagine/core/blobs_impl.cpp:411-419 | For such blobs `received_everything`, in spite of its clause for an empty list, holds exactly when the size is known and all of it is covered |
| `BlobManipulators.TotalsAreStable` | source/modules/eagine/core/blobs_impl.cpp:764-772 | In such runs a fragment never changes a known total size |
| `BlobManipulators.HandedChunksAreTheBlob` | source/modules/eagine/core/blobs_impl.cpp:1181-1216 | A chunk sink handed over in such a run holds exactly a blob that was live at that time, cut into chunks |
| `BlobDelivery.PieceIsDelivered` | source/modules/eagine/core/blobs_impl.cpp:843-899 | Every non-empty piece of a live blob is let in, and the first pending blob with its ids has its bytes afterwards |
| `BlobDelivery.ReceivedIsHandedOver` | source/modules/eagine/core/blobs_impl.cpp:1181-1216 | Progress over runs fed by live blobs: when every byte of a live blob below the size limit came in fragments since some event, and nothing was dropped since, the next fetch at the latest has handed it over, whole |
| `BlobDelivery.ExpectedIsDelivered` | source/modules/eagine/core/blobs_impl.cpp:698-720 | A blob announced before anything of it was received, for its source or for any source without rivals, is then handed over to the sink it was announced with, whose calls carry only its bytes and store them all, whatever its size |
| `Bits.Count` | source/modules/eagine/core/message.cpp:862-870 | Clearing the lowest bit until none is left counts the set bits |
| `Bits.ClearLowest` | source/modules/eagine/core/message.cpp:862-870 | x & (x - 1) has one set bit less |
| `Bits.PopCountCounts` | source/modules/eagine/core/message.cpp:862-870 | The count of a set that represents a list of choices is the number of choices made |
| `Bits.ShiftedZeroIff` | source/modules/eagine/core/message_impl.cpp:185-221 | The packing bit is shifted out exactly after 64 messages |
| `Bits.BitOfShifted` | source/modules/eagine/core/message_impl.cpp:185-221 | The packing bit of message i is bit i and no other |
| `Outbox.SerializedMessageStorage.PackInto` | source/modules/eagine/core/message_impl.cpp:234-252 | The info's bits and top priority describe the greedy choice among the first 64 messages; the block is their frames, in order, filled up with zeros |
| `Outbox.SerializedMessageStorage.Cleanup` | source/modules/eagine/core/message_impl.cpp:254-272 | Removes the entries whose bit is set and keeps the others in order, given bits of queued messages only |
| `Outbox.SerializedMessageStorage.Push` | source/modules/eagine/core/message_impl.cpp:224-232 | Appends a non-empty message with its priority, ignores an empty one |
| `Outbox.ChoiceIff` | source/modules/eagine/core/message_impl.cpp:234-252 | A message is packed if and only if it is among the first 64 and its frame fits behind the frames of those packed before it |
| `Outbox.TopPriorityIsMax` | source/modules/eagine/core/message.cpp:888-895 | The priority in the info is the highest of the packed messages, idle for none |
| `Outbox.PackPushCleanup` | source/modules/eagine/core/message_impl.cpp:234-272 | After packing and any pushes the bits are in bounds, cleanup removes exactly the packed messages and keeps all others in order, and `count()` is the number removed |
| `Outbox.UnpackBlock` | source/modules/eagine/core/message_impl.cpp:234-252 | The frames fit the block, and reading frames off the block gives exactly the packed messages, in order |
| `Outbox.PackCountGrows` | source/modules/eagine/core/message_impl.cpp:234-252 | Appending messages never lowers the packed count, which is at most 64 |
| `SendMachine.AsioConnection.Send` | source/modules/eagine/core/asio_impl.cpp:592-596 | Queues the message at the end of the outbox and touches nothing else |
| `SendMachine.AsioConnection.StartIfNeeded` | source/modules/eagine/core/asio_impl.cpp:349-373 | Packs, counts down, and starts a send or waits; the exact number of polls is that of `SendBeginsAtPoll`; reports work if forced or anything was packed |
| `SendMachine.SendBeginsAtPoll` | source/modules/eagine/core/asio_impl.cpp:333-381 | From any counters, with an open socket and an outbox that does not change, n packable messages of highest priority p: no poll starts the send before poll max(1, countdown - p, one more when n is not the last packed count), that one does; 64 messages are sent with the first |
| `SendMachine.CountdownIsExact` | source/modules/eagine/core/asio_impl.cpp:333-381 | From the counters after a started send fewer than 64 packable messages of highest priority p wait through exactly 4 - p polls |
| `SendMachine.NewConnectionSends` | source/modules/eagine/core/asio_impl.cpp:216-217 | On a new connection the first poll sends the first message if and only if it is not empty and fits |
| `SendMachine.CompletionThenPolls` | source/modules/eagine/core/asio_impl.cpp:383-390 | What is left when a send completes is sent at once if and only if something critical or 64 messages can be packed, else after exactly 4 - p polls |
| `SendMachine.PackPriorityIsHighest` | source/modules/eagine/core/asio_impl.cpp:337-347 | The priority p is the highest of those messages that would be packed, no other message counts |
| `SendMachine.AsioConnection.Poll` | source/modules/eagine/core/asio_impl.cpp:375-381 | Does nothing while a send is under way |
| `SendMachine.AsioConnection.Sent` | source/modules/eagine/core/asio_impl.cpp:383-390 | Cleans up what was packed, by bit set, then starts again, forced if something was sent |
| `SendMachine.AsioConnection.SendFailed` | source/modules/eagine/core/asio_impl.cpp:298-302 | Clears the flag and closes the socket; the outbox is untouched |
| `SendMachine.SendRunsAreSafe` | source/modules/eagine/core/asio_impl.cpp:298-390 | Over every run with failed sends, closed sockets and reconnects: the flag is set exactly while a send is under way, the write buffer still holds its block, every queued message is in the outbox or in exactly one sent block, and each sent block reads back as its messages |
| `SendMachine.FlightIsUndisturbed` | source/modules/eagine/core/asio_impl.cpp:375-381 | Neither queueing nor polling changes the buffer or the messages of a send under way |
| `SendMachine.CompletionRemoves` | source/modules/eagine/core/asio_impl.cpp:567-576 | A successful send removes the messages of its block and no other |
| `SendMachine.FailureRemovesNothing` | source/modules/eagine/core/asio_impl.cpp:298-302 | A failed send itself removes nothing, and nothing is sent or removed until the socket is open again |
| `SendMachine.FailureIsRetried` | source/modules/eagine/core/asio_impl.cpp:919-931 | After a failed send and a reconnect the same outbox waits to be sent, and has something to pack |
| `SendMachine.FailureThenPolls` | source/modules/eagine/core/asio_impl.cpp:298-302 | After a failed send and a reconnect outbox and counters are as they were when it started, so it is sent again with exactly poll 5 - p, or the first with 64 messages |
| `SendMachine.AsioConnection.Reopen` | source/modules/eagine/core/asio_impl.cpp:919-931 | A reconnect keeps outbox, counters and buffer |
| `SendMachine.AsioConnection.Close` | source/modules/eagine/core/asio_impl.cpp:409-430 | A socket closed by a failed receive leaves everything else, also a send under way |
| `SendMachine.BoundedFlush` | source/modules/eagine/core/asio_impl.cpp:333-373 | With a single endpoint, whatever is queued meanwhile and however often the socket is closed and reopened, a packable outbox is being sent after 64 polls of an open socket plus the range of priorities |
| `SendMachine.PollProgress` | source/modules/eagine/core/asio_impl.cpp:333-373 | With a single endpoint, each poll of a packable outbox on an open socket starts a send or lowers 64 - packed count + countdown |
| `SendMachine.NothingPackableNothingSent` | source/modules/eagine/core/asio_impl.cpp:349-373 | While nothing queued can be packed no send starts |
| `Datagram.AsioDatagramServerConnection.PackInto` | source/modules/eagine/core/asio_impl.cpp:722-744 | The scan stops, packs the first endpoint in cyclic order from the index that has something packable and leaves the index behind it; it comes back empty, index unchanged, exactly when no endpoint has |
| `Datagram.AsioDatagramServerConnection.Accept` | source/modules/eagine/core/asio_impl.cpp:795-814 | An accepted endpoint joins the current ones and the index stays in range |
| `Datagram.ScanStopsIff` | source/modules/eagine/core/asio_impl.cpp:722-744 | An empty-handed scan returns to its start if and only if the start is in 0..n |
| `Datagram.TurnComesCloser` | source/modules/eagine/core/asio_impl.cpp:722-744 | Serving another endpoint brings a packable one strictly closer in the cyclic order |
| `Datagram.ServedWithinN` | source/modules/eagine/core/asio_impl.cpp:722-744 | For a fixed set of n endpoints one that stays packable is packed within n calls, whatever the queues of the others do; whether that is sent is up to the shared countdown |
| `DatagramSending.AsioConnectionState.StartSendIfNeeded` | source/modules/eagine/core/asio_impl.cpp:349-373 | Packs the endpoint whose turn it is, moves the index on whether or not a send starts, and decides by the one countdown and packed count all endpoints share |
| `DatagramSending.AsioConnectionState.StartSend` | source/modules/eagine/core/asio_impl.cpp:375-381 | Does nothing while a send is under way |
| `DatagramSending.SendEverBeginsIff` | source/modules/eagine/core/asio_impl.cpp:333-373 | With unchanging queues some number of polls starts a send if and only if something can be packed and either two endpoints that follow one another in turn pack equally many messages, or one packs 64 or a priority the countdown after the first poll has reached |
| `DatagramSending.NextSendBeginsIff` | source/modules/eagine/core/asio_impl.cpp:337-373 | After a send was started the next one ever begins only with equal neighbours, a critical message or 64 messages, and then does |
| `DatagramSending.OneEndpointSends` | source/modules/eagine/core/asio_impl.cpp:333-373 | With one endpoint that can be packed a send always begins |
| `DatagramSending.TwoEndpointsStall` | source/modules/eagine/core/asio_impl.cpp:333-373 | Two endpoints with one and two messages, none critical, are never served after a start, by any number of polls |
| `Queues.MessageStorage.FetchAll` | source/modules/eagine/core/message_impl.cpp:117-139 | Marking and erasing leaves the refused messages that do not carry the removal mark, in order; reports whether any was accepted |
| `Queues.MessageStorage.Push` | source/modules/eagine/core/message.cpp:776-781 | Appends the message |
| `Queues.MessageStorage.PushIf` | source/modules/eagine/core/message.cpp:787-808 | Keeps the filled message, or takes the slot back and changes nothing |
| `Queues.FetchKeepsRefusedIff` | source/modules/eagine/core/message_impl.cpp:117-139 | A fetch keeps exactly the refused messages if and only if none of them came with the hop count used as the removal mark |
| `Queues.FetchPartitions` | source/modules/eagine/core/message_impl.cpp:117-139 | Every message is accepted or refused, exactly once |
| `Queues.FetchLeaves` | source/modules/eagine/core/message_impl.cpp:117-139 | A fetch leaves each refused message with fewer than 64 hops exactly as often as it was there, and no other |
| `Queues.MessagePriorityQueue.Push` | source/modules/eagine/core/message.cpp:1028-1037 | The vector stays sorted; the message joins the end of its priority's lane and no other lane changes |
| `Queues.MessagePriorityQueue.ProcessOne` | source/modules/eagine/core/message.cpp:1039-1050 | Offers the oldest message of the highest priority and removes it exactly when accepted |
| `Queues.MessagePriorityQueue.ProcessAll` | source/modules/eagine/core/message_impl.cpp:288-309 | The vector stays sorted, each lane keeps its refused messages in order, and the result is the number removed |
| `Queues.PushAppendsToLane` | source/modules/eagine/core/message.cpp:1028-1037 | Inserting at the lower bound appends to one lane and leaves the others alone |
| `Queues.LaneOfBack` | source/modules/eagine/core/message.cpp:1039-1050 | The last element is the first in line of its lane |
| `Queues.LaneOfRefused` | source/modules/eagine/core/message_impl.cpp:288-309 | Refusing keeps the order within every lane |
| `Direct.DirectConnectionIsSafe` | source/modules/eagine/core/direct.cpp:60-99 | In every interleaving the fetching consumer holds a storage the producer does not push into, no message is lost or duplicated even when some are refused, and if none is refused what was received is a prefix of what was sent |
| `Direct.FetchAllOf` | source/modules/eagine/core/direct.cpp:77-99 | An uninterrupted fetch hands the handler exactly what was pushed since the last swap, in order, and leaves the refused |
| `Direct.DoubleBuffer.PushNext` | source/modules/eagine/core/direct.cpp:60-75 | A push under the lock appends the message to the storage that is not the consumer's and changes nothing else |
| `Direct.DoubleBuffer.SwapAndFetch` | source/modules/eagine/core/direct.cpp:77-99 | Swap and fetch are the swap, offer and erase steps run in a row |
| `Direct.DirectConnectionState.SendToServer` | source/modules/eagine/core/direct.cpp:60-65 | Pushes one way and leaves the other direction alone |
| `Direct.DirectConnectionState.SendToClient` | source/modules/eagine/core/direct.cpp:67-75 | Pushes only while the client is connected, and says so |
| `Direct.DirectConnectionState.FetchFromClient` | source/modules/eagine/core/direct.cpp:77-87 | Fetches one way, leaves the other alone, reports whether the client is connected |
| `Direct.DirectConnectionState.FetchFromServer` | source/modules/eagine/core/direct.cpp:89-99 | Fetches the other way |
| `MqttTopics.PahoMqttConnection.MsgIdToTopic` | source/modules/eagine/core/paho_mqtt_impl.cpp:197-218 | Resizing and appending to the scratch string yields the topic of message, sender and target, whatever it held before |
| `MqttTopics.PahoMqttConnection.MsgIdToSubscrTopic` | source/modules/eagine/core/paho_mqtt_impl.cpp:177-195 | The same for the two subscription filters |
| `MqttTopics.ParseIff` | source/modules/eagine/core/paho_mqtt_impl.cpp:153-175 | Exactly which topics are read as which message id and sender: those printed for a broadcast or for this client |
| `MqttTopics.FilterMatchesIff` | source/modules/eagine/core/paho_mqtt_impl.cpp:177-195 | A filter matches a printed topic (section 4.7.1.3 of MQTT Version 3.1.1) if and only if message and addressee agree |
| `MqttTopics.DeliveredIffAddressed` | source/modules/eagine/core/paho_mqtt_impl.cpp:143-218 | A printed topic matches one of a receiver's two filters exactly when it is a broadcast or meant for it, and exactly then the receiver reads back message id and sender |
| `MqttTopics.TopicLevels` | source/modules/eagine/core/paho_mqtt_impl.cpp:177-218 | The levels of a topic are eagi, bus, the two parts of the message id, the sender, and the target or a placeholder; a filter has a plus sign for the sender |
| `NodeRows.RowsLength` | source/app/monitor/src/NodeListViewModel.cpp:33-92 | There are as many rows as the counts say |
| `NodeRows.RowsDistinct` | source/app/monitor/src/NodeListViewModel.cpp:183-236 | With unique keys per level no item is shown twice |
| `NodeRows.ShownIffInTree` | source/app/monitor/src/NodeListViewModel.cpp:587-649 | An item is shown in some row if and only if it is in the tree |
| `NodeRows.RowsAreABijection` | source/app/monitor/src/NodeListViewModel.cpp:587-649 | Rows 0 to total count and items of the tree are in bijection |
| `NodeRows.NodeListViewModel.RowOfHost` | source/app/monitor/src/NodeListViewModel.cpp:183-193 | The row that shows the host, or -1 exactly when there is none |
| `NodeRows.NodeListViewModel.RowOfInst` | source/app/monitor/src/NodeListViewModel.cpp:195-211 | The row that shows the instance, or -1 exactly when there is none |
| `NodeRows.NodeListViewModel.RowOfNode` | source/app/monitor/src/NodeListViewModel.cpp:213-235 | The row that shows the node, or -1 exactly when there is none |
| `NodeRows.NodeListViewModel.OnItemSelected` | source/app/monitor/src/NodeListViewModel.cpp:587-620 | Selects the host, instance or node shown in the row by its ids and those above it; any other row number clears the selection |
| `NodeRows.NodeListViewModel.Index` | source/app/monitor/src/NodeListViewModel.cpp:622-649 | The row of a host has the host kind and its id, that of an instance the instance kind and its id, that of a node the node kind and its id, none past the last row; a negative row makes the position assertion fail if and only if there is an instance |
| `NodeRows.NodeListViewModel.FindSelectedRow` | source/app/monitor/src/NodeListViewModel.cpp:237-245 | The row of the item the selection stands for |
| `NodeRows.SelectedRowComesBackIff` | source/app/monitor/src/NodeListViewModel.cpp:237-245 | Selecting a row and finding the row of the selection returns to it if and only if the item is a host or its own id is not 0 |

## Left out

- Target I/O objects are not called through a common interface: their results never steer the merge loop, so a merge is described by the calls it makes, and each sink by what it does with them. `PendingBlob.MergeFragment` runs them on a buffer.
- Pending blobs inside `BlobManipulator` and `Sender` are values; their in-place merge loops are those of the class `PendingBlob`, tied to the same functions.
- PushIncomingFragment: negative offsets and total sizes, which `ProcessIncoming` never passes on, are not modelled, since intervals of natural numbers cannot hold them.
- `BlobManipulator` does not model blob priorities and options, the message signature, progress reports, or a getter that supplies another sink for unexpected blobs.
- `Transfer` has one blob; a request is modelled without its blob id, which `Sender.ProcessResend` covers. The 250 ms a receiver waits before asking is left out; asking, and the expiry of either side, are events that may happen at any time.
- A blob handed over can be received and handed over again when duplicated fragments arrive later, as in the code; what is proved is that every handover is the blob.
- Source preparation (`prepare`, progress floats, a size that changes while preparing) and fragment room by priority (`_message_size`): the room is a parameter, the header is part of it.
- `Sender` keeps the same blobs between calls where fairness is stated; erasing finished blobs is not modelled, nor is the wrap-around of the running index.
- Buffer pools, statistics, usage counters of blocks, logging, time stamps and message ages.
- Integer widths other than those of blob ids and of the 64-bit sets; `limit_cast` and `safe_add` are taken as exact.
- Bytes a chunk gains when it is lengthened are unspecified in the code; the model fills them with zeros but no contract says so.
- `std::lower_bound`, `std::find_if`, `std::erase_if` and the map of waiting pieces are functions on sequences.
- `AsioConnection` has one endpoint; receiving, resolving and strands are not modelled, a reconnect is one event. `AsioDatagramServerConnection` sees the outboxes of its endpoints as values; its runs are polls of unchanging queues, and its cleanup per endpoint is that of the outbox.
- `PackInto` says nothing of the packed and total sizes that `message_pack_info` also carries; they feed statistics only.
- Handler answers are given as a list, one answer per message, fixed before a fetch; handlers do not call back into the queue.
- `fetch_all` of the serialized storage, `just_process_all`, `give_messages` and the router: simpler forms of what is modelled, or not part of these files.
- `DirectConnectionState` runs a fetch without interruption; interleavings with pushes are those of the step functions above it. Disconnecting only sets a flag and is left out.
- Identifier encoding: names are strings without the characters `/`, `+` and `#`; length limits and the numeric form of identifiers are left out, as is the multi-level wildcard, which no filter uses.
- `NodeListViewModel` leaves out updating nodes, repairing the hierarchy, and all data shown in a row; maps are sequences with unique keys in display order.
