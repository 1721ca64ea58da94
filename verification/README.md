# Verified models of freeunit

Freeunit is an application server: a router process takes HTTP requests and
hands them to worker processes, a controller process owns the configuration,
and every process runs event engines. This project models the parts of it whose
correctness is hardest to see from the code, and proves what they are for.

| part | modules | main results |
|---|---|---|
| the lock-free queue between router and workers | `Nncq`, `NncqRuns`, `NncqWrap`, `AppQueue`, `AppQueueSlots`, `AppQueueItems`, `AppQueueRuns`, `AppQueueAlone`, `Doorbell`, `Rearming` | `NncqRuns.Linearizable`, `NncqWrap.WrappedLinearizable`, `AppQueueRuns.SafeRuns`, `AppQueueRuns.QueuedIffWaiting`, `AppQueueAlone.SendAlone`, `AppQueueAlone.ReceiveAlone`, `Doorbell.NoLostWakeUp`, `Rearming.DrainedRunRings` |
| the JSON configuration engine | `JsonSpace`, `JsonLayout`, `JsonString`, `JsonSpelling`, `JsonNumber`, `JsonGrammar`, `JsonValue`, `JsonParse`, `JsonText`, `JsonPrint`, `JsonRoundTrip`, `JsonTheorems` | `JsonText.TextReads`, `JsonText.TextWas`, `JsonSpelling.CodePointsRead`, `JsonTheorems.RoundTrip`, `JsonTheorems.ParsePrintParse`, `JsonPrint.PrintFits`, `JsonGrammar.NumberIsRfc` |
| configuration edits | `ConfPath`, `ConfAddress`, `ConfEdit`, `ConfClone` | `ConfAddress.PathDescends`, `ConfEdit.CompileIsEdit`, `ConfClone.EditConf`, `ConfEdit.PutThenGet`, `ConfEdit.EditFrame`, `ConfEdit.DeleteIs` |
| connections on an event engine | `WorkQueues`, `Timers`, `ConnLists`, `ConnEngine`, `ConnRuns`, `ConnParked`, `TimerFires`, `ConnClose`, `ConnTrack` | `ConnRuns.NoUseAfterRecycle`, `ConnParked.FreedTimersNeverFire`, `ConnParked.FreeBySecondDrain`, `ConnParked.StructsAreReused`, `TimerFires.CalledOncePerAdd`, `ConnClose.ClosedOnce`, `ConnTrack.Tracker.Replay` |
| the controller | `Controller`, `ControllerRuns`, `ControllerAnswers`, `ControllerOrder`, `ControllerHandlers`, `CertStore`, `CertRuns` | `ControllerRuns.ControllerIsOrderly`, `ControllerRuns.AnnounceIffQuiet`, `ControllerAnswers.AnsweredWhenDue`, `ControllerAnswers.DoneWhenEarned`, `ControllerOrder.NoOvertaking`, `CertRuns.CertsAlongController` |
| the /dev/poll change batch | `Devpoll`, `DevpollCalls`, `DevpollInterest` | `Devpoll.BatchIsInterest`, `DevpollInterest.KernelIsAsked`, `Devpoll.RunFailsIffImproper` |
| self-contained algorithms | `EditDistance`, `DamerauDistance`, `ConfPointer`, `StatusReader` | `EditDistance.DistanceIsMinimum`, `DamerauDistance.SameUnlessTorn`, `ConfPointer.ValidateEncoding`, `StatusReader.ProcStatusHeld`, `StatusReader.SetReads` |

`Bytes` and `Links` have what they share. `dafny verify dfyconfig.toml` checks everything.

## How the source is modelled

- Code that runs in several threads or over many events is a transition system.
  A state is a value, a step is a function, a run is any sequence of steps, and
  the theorems are about every run. In the queues each atomic load, store or
  compare-and-set is a step of its own, and so is each byte of an unsynchronised
  copy. History fields (`log`, `history`, `h`, `popped`) record what happened;
  no step reads them to decide what to do.
- Code that runs alone and updates things in place is a class or a method with
  loops, proved against a function on values. The lemmas are about that function.
- Lengths, positions and counters are unbounded, except where the width matters:
  the 32-bit counters of the queue (`NncqWrap`, `DecisionOnWrappedCounters`),
  sums that saturate at SIZE_MAX (`JsonPrint`, `ConfPointer.Size`), the 64-bit shift of
  the status reader and the 64-bit overflow test of an index (`ConfPath.ParseInt`) are written out.

Taken from outside as parameters: what `strtod()` says of a number and the order
in which a hash lists its members (`JsonValue.Library`), whether a text is valid
UTF-8 (`utf8`), how a `read()` ends (`StatusReader.Cut`), and what comes of a
controller request when it runs, and whether the configuration can be sent again
(`Controller.World`).

Assumptions about the environment:

- Memory is sequentially consistent.
- A request starts with its own tracking value, which is not zero and is not used
  again while a router thread still holds the ticket of an older request.
- A worker goes to sleep after a receive that returned nothing. That may be because the
  retries of its dequeue ran out, and a worker may end at any moment when it has no item in
  hand, with or without a doorbell that it has not read; `Doorbell.NoLostWakeUp` counts both.
- For the wrapped counters, no thread is stopped for CYCLES - 1 cycles or more of
  the queue in the middle of a call. `NncqWrap.StalledThreadIsMisled` shows that
  the bound is needed.
- Nothing posted from another thread carries a connection, a handler names a
  parked connection struct only while the engine drains its work queues, and the
  poll does not change timers.
- A router is announced only when the messages to the one before it have been answered
  or have failed (`ControllerRuns.Proper`). `ControllerRuns.AnnounceIffQuiet` shows
  that without this the order is lost, and with it is not.
- A delete of a certificate bundle that fails leaves its file in place.
- A request of the controller is of the same kind whenever it runs (`ControllerAnswers.Steady`).

## Where the code and its documentation differ

The models follow the code.

- A number such as `-01` is accepted, which section 6 of RFC 8259 does not allow: the test
  for a leading zero looks at the first byte only. `JsonGrammar.MinusZeroAccepted` is the
  case; `JsonGrammar.RfcExceptMinusZero` and `JsonGrammar.NumberIsRfc` say that the code
  and the grammar differ on exactly the numbers that start with a minus, a zero and a digit.
- The size estimate of a decoded string counts three bytes for each escaped control
  byte, so whether a string can be read back depends on that estimate and not on its
  length. `JsonRoundTrip.StringRound` gives the exact condition.
- A path token with leading zeros names an array element too; `ConfEdit.EditFrame`
  therefore speaks of the element and not of the token.
- The edit distance is the optimal string alignment distance, not the
  Damerau-Levenshtein distance that the comment names, taken here as Lowrance and Wagner
  defined it. It is never less (`DamerauDistance.NeverMore`). It is the same unless two
  neighbours of one name stand exchanged in the other, torn apart by bytes that are neither
  of them (`DamerauDistance.SameUnlessTorn`), and every such pair by itself gets one more
  (`DamerauDistance.MoreWhenTorn`, `DamerauDistance.MoreWhenTornBack`). Within longer
  names a torn pair may not matter (`DamerauDistance.TornAndSame`): then another script is
  as cheap, which depends on the rest of both names.
- `nxt_devpoll_enable()` on an event that is registered already makes the next commit
  fail, and on no other event (`Devpoll.EnableFailsIffRegistered`, `Devpoll.RunFailsIffImproper`).
- `nxt_conn_idle()` on a connection that is not tracked unbalances the counters, and
  only then (`ConnTrack.Tracker.MakeIdle`).
- A receive that takes the last item does not always clear the one-reader flag: the depth is
  the difference of two counters, and a producer that has stored its item and not yet moved the
  tail makes it wrong by one. `Rearming.LastItemClears` gives the exact condition, and
  `Rearming.LaggingTailKeepsFlag` a run in which the flag outlives the last item.
- A receive that finds nothing does not clear that flag at all. So when its doorbell ends unread
  while the queue is empty, the next item waits until some worker takes an item for another
  reason (`Rearming.UnreadDoorbellStalls`); after a receive that found the queue drained it
  does not (`Rearming.DrainedRunRings`).
- An enqueue does not notice that the queue is full. Nothing in the inner queue limits
  how many values circulate; `Nncq.InPlaceIffWithin` says exactly when none is
  overwritten, and `AppQueueRuns.WithinCapacity` that the application queue keeps to it.

## Model

| member | source | states |
|---|---|---|
| `Nncq.InitValid` | src/nxt_app_nncq.h:110-117 | An initialized queue is valid and empty. |
| `Nncq.EnqueueStepKeeps` | src/nxt_app_nncq.h:124-162 | Every atomic step of an enqueue keeps the queue valid and leaves what every other thread has loaded usable. |
| `Nncq.DequeueStepKeeps` | src/nxt_app_nncq.h:172-200 | The same for every step of a dequeue. |
| `Nncq.EnqueueStepEffect` | src/nxt_app_nncq.h:124-162 | Of all steps of an enqueue only the successful swap of the entry changes the contents, and it appends the value at the reported position. |
| `Nncq.DequeueStepEffect` | src/nxt_app_nncq.h:172-200 | Only the successful swap of the head changes the contents: it removes the oldest value and returns it. An "empty" by the cycle test is decided at a moment when the queue is empty. |
| `Nncq.HeadBound` | src/nxt_app_nncq.h:124-200 | The head is at most one past the tail, and then the entry at the tail is stored already. |
| `Nncq.QueuedInPlace` | src/nxt_app_nncq.h:124-200 | Within the capacity a stored value stays in its slot until it is taken. |
| `Nncq.InPlaceIffWithin` | src/nxt_app_nncq.h:12-34 | All queued values are in their slots if and only if at most SIZE values are queued. |
| `Nncq.SwapAtBound` | src/nxt_app_nncq.h:144-158 | When the swap of an entry succeeds, its position is the next one: no enqueue overtakes another. |
| `Nncq.DequeueAloneFinishes` | src/nxt_app_nncq.h:172-200 | A dequeue that runs alone returns the oldest value, or "empty" exactly on an empty queue. |
| `Nncq.EnqueueAloneFinishes` | src/nxt_app_nncq.h:124-162 | An enqueue that runs alone stores its value, also when another thread stopped before it advanced the tail. |
| `NncqRuns.NextKeepsInv` | src/nxt_app_nncq.h:124-200 | Every step of every thread keeps the invariant: the history replays to the contents, and each call has had exactly the effect it will report. |
| `NncqRuns.Linearizable` | src/nxt_app_nncq.h:124-200 | In every interleaving of any number of threads the effects, in their order, are a run of a sequential first-in first-out queue; each call has its one effect between its call and its return; the head is at most one past the tail. |
| `NncqWrap.EntryPacking` | src/nxt_app_nncq.h:64-100 | new_entry, cycle and index are inverse to each other on all 32-bit words. |
| `NncqWrap.WrapPosition` | src/nxt_app_nncq.h:20-34 | The wrap of a position wraps its cycle and keeps its slot. |
| `NncqWrap.CycleTestsAgree` | src/nxt_app_nncq.h:78-90 | Both cycle tests on wrapped cycles are exact while the entry is fewer than CYCLES - 1 cycles ahead. |
| `NncqWrap.StalledThreadIsMisled` | src/nxt_app_nncq.h:78-90 | One cycle more and the test says "empty" of a stored entry, so the bound is tight. |
| `NncqWrap.EnqueueStepAgrees` | src/nxt_app_nncq.h:124-162 | Each 32-bit step of an enqueue is the wrap of the unbounded step. |
| `NncqWrap.DequeueStepAgrees` | src/nxt_app_nncq.h:172-200 | Each 32-bit step of a dequeue is the wrap of the unbounded step. |
| `NncqWrap.WrappedRunAgrees` | src/nxt_app_nncq.h:20-200 | In every interleaving without a stall the 32-bit queue is the wrap of the unbounded one. |
| `NncqWrap.WrappedLinearizable` | src/nxt_app_nncq.h:20-200 | So the queue with its wrapping counters is linearizable too: the effects are a run of the sequential queue, and what each 32-bit call returns is its one effect. |
| `AppQueueRuns.InitQueues` | src/nxt_app_queue.h:42-55 | The loop puts every slot on the free list once, in order, and leaves the work queue empty. |
| `AppQueueRuns.Initialize` | src/nxt_app_queue.h:42-55 | A new segment is a start of runs, whatever its items hold. |
| `AppQueueSlots.NextKeepsSlots` | src/nxt_app_queue.h:81-282 | Every step of every sender, receiver and canceller keeps each slot in the one place that is recorded for it. |
| `AppQueueSlots.SideWithin` | src/nxt_app_queue.h:42-55 | A queue that holds each slot at most once is within its capacity. |
| `AppQueueItems.NextKeepsItems` | src/nxt_app_queue.h:81-282 | Every step keeps what is said of items: a queued slot has the whole message that was sent in it, and the fate of a message is decided once. |
| `AppQueueItems.ClaimKeeps` | src/nxt_app_queue.h:248-265 | The claim of a worker keeps this, because it runs before the slot goes back to the free list. |
| `AppQueueItems.CancelKeeps` | src/nxt_app_queue.h:185-194 | So does a cancel at any moment, whatever has become of the slot. |
| `AppQueueItems.PutWorkItems` | src/nxt_app_queue.h:109-125 | A message is complete in its slot before the slot is in the work queue. |
| `AppQueueItems.TakeWorkItems` | src/nxt_app_queue.h:218-229 | A dequeue of the work queue gives the worker the slot of the oldest message. |
| `AppQueueRuns.EachSlotInOnePlace` | src/nxt_app_queue.h:104-125 | A slot is on the free list, in the work queue, in the hands of one thread, or lost, and in only one of these, once. |
| `AppQueueRuns.LostOnlyWhenExhausted` | src/nxt_app_queue.h:119-125 | A slot is lost only by a thread whose retries ran out while it gave the slot back. |
| `AppQueueRuns.WithinCapacity` | src/nxt_app_queue.h:42-55 | Neither inner queue ever holds more than it has room for. |
| `AppQueueRuns.WritesOnlyHeldSlot` | src/nxt_app_queue.h:109-113 | A thread writes only the slot in its hands, so no item is written while another party reads it. |
| `AppQueueRuns.QueuedIffWaiting` | src/nxt_app_queue.h:173-194 | For every ticket, queued() is true, and cancel() succeeds, exactly when the message waits and was not cancelled, even if the slot has been used again. |
| `AppQueueRuns.SafeState` | src/nxt_app_queue.h:42-282 | What the steps keep implies all that is said of runs below. |
| `AppQueueRuns.SafeRuns` | src/nxt_app_queue.h:42-282 | In every run: slots are conserved, both queues are within capacity, every received message has the body that was sent, and exactly one of "claimed" and "cancelled" holds of it. |
| `AppQueueAlone.ReceiveAlone` | src/nxt_app_queue.h:209-282 | A receive that runs alone, on the memory before and after: the oldest item is taken, the message that was sent with it is handed out and claimed unless cancelled, its slot goes to the end of the free list, no doorbell changes, and the flag is cleared if and only if the tail equals the head after the take. |
| `AppQueueAlone.SendAlone` | src/nxt_app_queue.h:81-144 | A send that runs alone: the first free slot gets size, body and tracking value and goes to the end of the work queue; the doorbell rings if and only if the flag was clear, or, with more readers, fewer items than the bound were waiting. |
| `AppQueueAlone.ReceiveNothing` | src/nxt_app_queue.h:218-229 | A receive on an empty queue leaves the memory as it is, the flag included. |
| `AppQueueAlone.SendNothing` | src/nxt_app_queue.h:104-107 | A send without a free slot changes nothing. |
| `Doorbell.OthersHelp` | src/nxt_app_queue.h:66-78 | No step of one thread takes away the help of another; a late sample of the head can only lead to more doorbells. |
| `Doorbell.FlagCovers` | src/nxt_app_queue.h:127-133 | A producer that finds the flag set need not ring: another doorbell is on its way, unless that may have ended unread. |
| `Doorbell.NextAwaited` | src/nxt_app_queue.h:127-279 | Every step, the end of a worker included, keeps the coverage of waiting items by doorbells, awake workers and undecided producers, in both modes. |
| `Doorbell.NoLostWakeUp` | src/nxt_app_queue.h:66-165 | In every run, when no producer is between its store and its ring, doorbells and workers that will look are at least as many as the smaller of the items waiting and the bound, less one for each look that was lost since a receive last found the queue empty: a receive that ran out of retries, a worker that ended, a doorbell that ended unread. With one reader this holds unless the doorbell of the flag may have ended unread since the flag was last cleared. |
| `Rearming.LastItemClears` | src/nxt_app_queue.h:266-279 | A receive that runs alone and takes the last item leaves the flag clear if and only if it was clear or no store lags behind the tail. |
| `Rearming.DrainedThenSent` | src/nxt_app_queue.h:127-133 | With one reader and no lagging store: a receive that drains the queue and then a send, each alone, end with one doorbell more, whether or not the doorbell of the flag was read. |
| `Rearming.LaggingTailKeepsFlag` | src/nxt_app_queue.h:58-63 | A run in which a store lags, so that the flag outlives the receive of the last item. |
| `Rearming.DrainedReceiveClears` | src/nxt_app_queue.h:266-279 | Whatever the others do between its accesses, a receive whose loads of tail and head agree clears the flag. |
| `Rearming.DrainedRunRings` | src/nxt_app_queue.h:266-279 | In every run with one reader, with workers ending and doorbells unread at any time: once a receive has found the queue drained, the next producer that decides rings. |
| `Rearming.UnreadDoorbellStalls` | src/nxt_app_queue.h:218-229 | For all states in which the queue is empty and the doorbell of the flag ends unread: a receive that finds nothing and a send later, the item waits, no doorbell is there and nobody will look. |
| `Doorbell.DecisionOnWrappedCounters` | src/nxt_app_queue.h:74-78 | The signed 32-bit difference decides as the unbounded positions do, for differences within 31 bits. |
| `JsonSpace.SkipSpace` | src/nxt_conf.c:1415-1497 | The state machine ends at the first byte that is neither white space nor in a complete comment. |
| `JsonLayout.GapSkips` | src/nxt_conf.c:1415-1497 | Every sequence of blanks, comments to the end of a line and block comments is skipped. |
| `JsonLayout.SkippedWasGap` | src/nxt_conf.c:1415-1497 | What is skipped is such a sequence, and no further blank or complete comment starts after it. |
| `JsonLayout.SkipIsLongest` | src/nxt_conf.c:1415-1497 | Skipping ends behind such a sequence if and only if it is the longest there. |
| `JsonString.FindEnd` | src/nxt_conf.c:1998-2103 | The first pass finds the closing quote and a surplus such that last - start - surplus is the room counted character by character, or fails exactly on a malformed character. |
| `JsonString.ScanOneChar` | src/nxt_conf.c:1998-2236 | Both passes see the same characters and count the same room for each. |
| `JsonString.ScanDecode` | src/nxt_conf.c:1998-2236 | What decodes was scanned up to the same quote. |
| `JsonString.ReadHex4` | src/nxt_conf.c:2180-2189 | The loop computes the number of four digits; `JsonSpelling.HexReads` says what that is. |
| `JsonString.ReadChar` | src/nxt_conf.c:2143-2227 | One character is decoded by the reference decoder, surrogate pairs included, and a lone surrogate fails; `JsonSpelling.CharReads` and `JsonSpelling.CharWasSpelled` say what that decoder accepts. |
| `JsonString.FillString` | src/nxt_conf.c:2103-2236 | Decoding writes within the room that the first pass counted and never reads past the quote. |
| `JsonString.ParseString` | src/nxt_conf.c:1981-2239 | The two passes together read a string literal as the reference decoder does: its bytes and its end, or failure; `JsonSpelling.StringReads` and `JsonSpelling.StringWasSpelled` say which literals these are. |
| `JsonString.NothingEscaped` | src/nxt_conf.c:2135-2138 | Without a surplus the bytes are the text itself. |
| `JsonSpelling.HexReads` | src/nxt_conf.c:2180-2189 | For every code unit, all sixteen ways to write its four digits in either case read as that unit. |
| `JsonSpelling.HexWasWritten` | src/nxt_conf.c:2180-2189 | Four digits are one of these ways to write what they read as. |
| `JsonSpelling.Utf8Back` | src/nxt_utf8.c:13-43 | The bit layout of section 3 of RFC 3629, with the shortest form required, gives back every code point from its encoding. |
| `JsonSpelling.PairReads` | src/nxt_conf.c:2197-2220 | For every code point above 0xffff, the surrogates computed from it, written in any case, read as its UTF-8. |
| `JsonSpelling.CharReads` | src/nxt_conf.c:2143-2227 | Every spelling of a character, raw, by a letter, by an escape or by a pair, reads as the bytes it stands for. |
| `JsonSpelling.CharWasSpelled` | src/nxt_conf.c:2143-2227 | What is read as a character is one of these spellings. |
| `JsonSpelling.StringReads` | src/nxt_conf.c:1981-2239 | Every sequence of spellings between quotes reads as its bytes if the room set aside is within the limit, and is refused otherwise. |
| `JsonSpelling.StringWasSpelled` | src/nxt_conf.c:1981-2239 | A string that is accepted is such a sequence, within the limit. |
| `JsonSpelling.CodePointsRead` | src/nxt_conf.c:1981-2239 | However the code points of a string are written, as themselves or by any escape, the string reads as their UTF-8. |
| `JsonNumber.ScanDigits` | src/nxt_conf.c:2257-2273 | The one loop over digits and a dot finds the integer part and the fraction. |
| `JsonNumber.ParseNumber` | src/nxt_conf.c:2242-2371 | The end of the number, or failure, as the grammar of the code says. |
| `JsonNumber.NumberMoves` | src/nxt_conf.c:2242-2371 | A number is read alike wherever it stands, if no byte after it belongs to a number. |
| `JsonGrammar.MinusZeroAccepted` | src/nxt_conf.c:2289-2296 | The code accepts -01, which the grammar does not. |
| `JsonGrammar.RfcExceptMinusZero` | src/nxt_conf.c:2242-2371 | At every position of every text the scan ends where the grammar's does, except that the grammar refuses what starts with a minus, a zero and a digit. |
| `JsonGrammar.NumberIsRfc` | src/nxt_conf.c:2242-2371 | A whole text that does not start so is a number for the code if and only if it is [ minus ] int [ frac ] [ exp ] of section 6 of RFC 8259. |
| `JsonParse.Parser.ParseValue` | src/nxt_conf.c:1500-1621 | The recursive parser computes the value at a position; the depth counter is back where it was on every path, errors included. |
| `JsonParse.Parser.ParseArray` | src/nxt_conf.c:1867-1978 | The loop reads an array, with trailing commas and the limit on elements. |
| `JsonParse.Parser.ParseObject` | src/nxt_conf.c:1634-1818 | The loop reads an object; a second member of a name fails. |
| `JsonParse.Parser.ParseName` | src/nxt_conf.c:1684-1751 | A member's name, its colon, and the start of its value. |
| `JsonParse.Parser.ParsePayload` | src/nxt_conf.c:1367-1412 | The whole text is one value between spaces and comments, or it is refused. |
| `JsonText.WordsAndMarks` | src/nxt_conf.c:1500-1621 | The words and marks are null, true, false and the punctuation of the grammar. |
| `JsonText.DocReads` | src/nxt_conf.c:1500-1621 | Every document within the limits, at any nesting, with any gaps and spellings, is read as its value where it stands. |
| `JsonText.ItemsRead` | src/nxt_conf.c:1867-1978 | The same for the elements of an array, with or without a comma after the last. |
| `JsonText.FieldsRead` | src/nxt_conf.c:1634-1818 | The same for the members of an object with distinct names. |
| `JsonText.DocWas` | src/nxt_conf.c:1500-1978 | What is read as a value is a document within the limits with that value. |
| `JsonText.TextReads` | src/nxt_conf.c:1367-1412 | Every text of a document within the limits, with gaps before and after, is accepted with its value. |
| `JsonText.TextWas` | src/nxt_conf.c:1367-1412 | Every text that is accepted is such a text: the parser accepts exactly this language. |
| `JsonPrint.EscapeFits` | src/nxt_conf.c:2719-2810 | The escape length is exactly the length of the escaped text. |
| `JsonPrint.PrintFits` | src/nxt_conf.c:2408-2810 | For every value, in both modes and at every nesting, the text printed is no longer than the length computed for it. |
| `JsonPrint.SizeEscape` | src/nxt_conf.c:2719-2753 | The loop counts the escaped length, saturating at SIZE_MAX. |
| `JsonPrint.Printer.Size` | src/nxt_conf.c:2408-2438 | The exact length, or SIZE_MAX when it does not fit; the level is restored. |
| `JsonPrint.Printer.SizeArray` | src/nxt_conf.c:2504-2544 | The same for arrays. |
| `JsonPrint.Printer.SizeObject` | src/nxt_conf.c:2599-2644 | The same for objects. |
| `JsonPrint.Printer.PutEscaped` | src/nxt_conf.c:2756-2810 | The escaped text is appended to what is in the buffer. |
| `JsonPrint.Printer.PutValue` | src/nxt_conf.c:2441-2472 | The printed value is appended; the level is restored. |
| `JsonPrint.Printer.PutArray` | src/nxt_conf.c:2547-2596 | The printed array is appended. |
| `JsonPrint.Printer.PutObject` | src/nxt_conf.c:2647-2716 | The printed object is appended. |
| `JsonPrint.Serialize` | src/nxt_controller.c:3273-3293 | Sizing and then printing into a buffer of that size gives the text, and is refused exactly when the size does not fit. |
| `JsonRoundTrip.StringRound` | src/nxt_conf.c:1981-2239 | A printed string reads back as itself if and only if the reader's estimate is within the limit, for every byte sequence. |
| `JsonRoundTrip.NumberRound` | src/nxt_conf.c:2242-2371 | A printed number reads back with its text. |
| `JsonRoundTrip.ValueRound` | src/nxt_conf.c:1500-1621 | Every value within the limits reads back from where it is printed, in both modes, at every nesting. |
| `JsonRoundTrip.ArrayRound` | src/nxt_conf.c:1867-1978 | The same for arrays. |
| `JsonRoundTrip.ObjectRound` | src/nxt_conf.c:1634-1818 | The same for objects. |
| `JsonTheorems.RoundTrip` | src/nxt_conf.c:1367-2810 | Parsing the printed form of a value within the limits gives the value, its members in hash order. |
| `JsonTheorems.SameMeaning` | src/nxt_conf.c:1634-1818 | The hash order does not change what a value means. |
| `JsonTheorems.ReserveOfDecoded` | src/nxt_conf.c:1998-2236 | The estimate for a decoded string is at most the room it was read with, so what was read can be read again. |
| `JsonTheorems.ValueAtFits` | src/nxt_conf.c:1500-1978 | Whatever the parser accepts is within the limits, names unique. |
| `JsonTheorems.ParsePrintParse` | src/nxt_conf.c:1367-2810 | For every text the parser accepts, both printers write a text that it accepts again, with the same meaning. |
| `ConfPath.ReadToken` | src/nxt_conf.c:537-569 | The next token of a path, after the byte before it; failure when the token is over the length limit or its encoding is bad. |
| `ConfPath.ParseInt` | src/nxt_parse.c:15-53 | The 64-bit parser returns the number of a text of digits that fits, and a negative result for every other text; -2 only after digits that do not fit. |
| `ConfPath.ParseIndex` | src/nxt_conf.c:513-521 | A token is an index exactly if it is a number up to 2^31 - 1. |
| `ConfPath.Unescape` | src/nxt_string.c:533-565 | The loop decodes a token; `ConfAddress.TokenReads` and `ConfAddress.TokenWasEncoded` say what that means. |
| `ConfPath.FindMember` | src/nxt_conf.c:572-603 | The first member of a name. |
| `ConfPath.GetPath` | src/nxt_conf.c:481-534 | The loop finds the value that the tokens of the path lead to; `ConfAddress.PathDescends` and `ConfAddress.FoundWasDescent` say what that is. |
| `ConfPath.LookupIsGet` | src/nxt_conf.c:481-534 | Without empty tokens that is plain descent, with or without a slash at the end. |
| `ConfAddress.ElementOfNumber` | src/nxt_conf.c:513-521 | The decimal text of every k, with any number of leading zeros, leads to element k if there is one and k is at most 2^31 - 1, and nowhere otherwise. |
| `ConfAddress.IndexWasNumber` | src/nxt_conf.c:513-521 | A token that is an index is the decimal text of that number after some zeros. |
| `ConfAddress.TokenReads` | src/nxt_string.c:533-565 | A token whose bytes are written raw or percent-encoded, in any case, decodes to those bytes. |
| `ConfAddress.TokenWasEncoded` | src/nxt_string.c:533-565 | What decodes was written so. |
| `ConfAddress.TokensRead` | src/nxt_conf.c:537-569 | Every list of encoded tokens joined by slashes is cut into what they say, unless an encoded token is over the limit; then the path fails. |
| `ConfAddress.TokensWereEncoded` | src/nxt_conf.c:537-569 | A path that is cut into tokens was such a list. |
| `ConfAddress.PathDescends` | src/nxt_conf.c:481-534 | A path that says the names of members and the numbers of elements, with or without a slash at its end, finds what descent by these leads to, or nothing if that leads nowhere. |
| `ConfAddress.FoundWasDescent` | src/nxt_conf.c:481-534 | What a path finds, such a descent leads to. |
| `ConfEdit.CompileIsEdit` | src/nxt_conf.c:934-1070 | Compiling succeeds exactly when the edit is possible, refuses exactly a POST to a value that is not an array, and the chain it makes does the functional update at the path. |
| `ConfEdit.PutThenGet` | src/nxt_conf.c:934-1070 | After a PUT the path has the new value. |
| `ConfEdit.PostThenGet` | src/nxt_conf.c:934-1070 | After a POST the array at the path has the value as its new last element. |
| `ConfEdit.ParentAfterEdit` | src/nxt_conf.c:934-1070 | An edit changes the parent of its last token as the edit of one child says; a DELETE takes exactly that child away. |
| `ConfEdit.EditFrame` | src/nxt_conf.c:934-1364 | PUT and POST leave everything off the path as before; DELETE leaves everything off the path to the parent as before, whatever the names. |
| `ConfEdit.MemberRemoved` | src/nxt_conf.c:1237-1364 | In the members without one of them, its name is not found and every other name is found where it was, moved down by one behind the gap; DeleteIs has this of the edited tree. |
| `ConfEdit.DeleteIs` | src/nxt_conf.c:934-1364 | For every path asked for after a DELETE: what is off the path is as before, the ancestors are edited below, the deleted member is gone, and the elements behind a deleted element move down by one. |
| `ConfEdit.DeleteThenGet` | src/nxt_conf.c:934-1364 | After a DELETE of a member nothing is at its path. |
| `ConfEdit.DeleteFrame` | src/nxt_conf.c:934-1364 | After a DELETE of a member everything off its path is as before, the other members of its object included. |
| `ConfEdit.DeleteShifts` | src/nxt_conf.c:1137-1234 | After a DELETE of an element the indexes below it lead where they did, an index from it on leads to the former next one, and the last index leads nowhere. |
| `ConfEdit.EditKeepsUnique` | src/nxt_conf.c:934-1364 | Member names stay unique at every level. |
| `ConfClone.CompileOps` | src/nxt_conf.c:934-1070 | The loop over the path computes the chain of operations, or the error. |
| `ConfClone.CompileLast` | src/nxt_conf.c:1000-1069 | The operation for the last token. |
| `ConfClone.FittingClones` | src/nxt_conf.c:1073-1364 | On a chain that fits the tree, cloning never fails and gives the tree with the chain applied. |
| `ConfClone.CopyValue` | src/nxt_conf.c:1094-1134 | A value is copied with its chain. |
| `ConfClone.CopyUpTo` | src/nxt_conf.c:1183-1192 | The inner loop copies the children up to an index, the one passed to with the rest of the chain. |
| `ConfClone.PutOp` | src/nxt_conf.c:1199-1227 | An operation is carried out on the copy at its index. |
| `ConfClone.CopyChildren` | src/nxt_conf.c:1137-1364 | The loop with its three indexes fills exactly the children of the result. |
| `ConfClone.EditConf` | src/nxt_conf.c:934-1364 | Compiling an edit and cloning with it equals the functional update at the path, for all trees, paths and edits in the domain; otherwise nothing is made. What the tokens of the path name is said by `ConfAddress.TokensRead` and `ConfAddress.ElementOfNumber`. |
| `WorkQueues.ChooseNoneIffEmpty` | src/nxt_event_engine.c:464-504 | The scan finds nothing exactly when all eight queues are empty. |
| `WorkQueues.NonePassedOver` | src/nxt_event_engine.c:464-504 | Going round from the current queue, no queue that has work is passed over, the fast queue apart, which comes between. |
| `WorkQueues.Scheduler.Pop` | src/nxt_event_engine.c:464-504 | The oldest item of the chosen queue is taken and the others stay; the current queue moves on only when it and the fast queue were empty, and is the fast queue when all are empty. |
| `Timers.CommitIsSilent` | src/nxt_timer.c:159-225 | Committing the batch changes no timer's effective membership. |
| `Timers.RecordTakesEffect` | src/nxt_timer.c:125-156 | A recorded change, with or without a commit of a full batch, decides its timer and no other. |
| `Timers.BatchIsImmediate` | src/nxt_timer.c:69-225 | Adding and deleting through the batch is the same as doing it at once. |
| `Timers.DeleteSaysQuiescent` | src/nxt_timer.c:104-122 | The result of a delete says whether anything still refers to the timer. |
| `Timers.TimerEngine.TakeOut` | src/nxt_timer.c:170-210 | The first loop takes timers out of the tree and collects those to add at the front of the array. |
| `Timers.TimerEngine.Commit` | src/nxt_timer.c:159-225 | Both loops together carry out every pending change. |
| `Timers.TimerEngine.Record` | src/nxt_timer.c:125-156 | A change overwrites the pending one of its timer, or is appended, after a commit if the batch is full. |
| `ConnLists.RecycledWhere` | src/nxt_conn.c:259-281 | Each parked struct stays parked or becomes free, according to its timers. |
| `ConnLists.RecycledOnce` | src/nxt_conn.c:259-281 | Both lists stay without duplicates and have nothing in common. |
| `ConnLists.Lists.Recycle` | src/nxt_conn.c:259-281 | The walk with a pointer to a link splices the settled structs to the free list and keeps the others in order. |
| `ConnRuns.CreateKeeps` | src/nxt_conn.c:49-133 | Taking a struct from the free list, or a new one, keeps the invariant of the engine. |
| `ConnRuns.FreeKeeps` | src/nxt_conn.c:136-210 | Parking a struct with its timers deleted keeps it; that the deletions are needed is `ConnParked.FreedTimersNeverFire`. |
| `ConnRuns.PopKeeps` | src/nxt_event_engine.c:507-559 | Taking a work item keeps it. |
| `ConnRuns.RecycleKeeps` | src/nxt_conn.c:259-281 | Promoting the settled structs keeps it when all queues are empty. |
| `ConnRuns.ExpireKeeps` | src/nxt_timer.c:280-327 | The expiry of a timer keeps it. |
| `ConnRuns.NextKeeps` | src/nxt_event_engine.c:464-559 | Every step keeps it. |
| `ConnRuns.NoUseAfterRecycle` | src/nxt_conn.c:49-281 | In every run each work item that was taken saw the incarnation of the struct it was queued for; free structs have no queued item and no unsettled timer; parked and free structs are disjoint and listed once, and the live ones are those on neither list. |
| `ConnParked.NextDisarmed` | src/nxt_conn.c:186-187 | Every step keeps that no timer of a struct that is not live is in the tree or will be put there. |
| `ConnParked.FreedTimersNeverFire` | src/nxt_timer.c:280-327 | In every run, no timer of a parked or free struct is armed, and the expiry of one changes nothing: it queues no work. |
| `ConnParked.FirstDrain` | src/nxt_conn.c:259-281 | When the queues are drained, a parked struct becomes free or has nothing left that refers to it but the batch that is now carried out. |
| `ConnParked.SecondDrain` | src/nxt_conn.c:259-281 | At the next drain it becomes free. |
| `ConnParked.FreeBySecondDrain` | src/nxt_event_engine.c:507-559 | From any state of any run: once the queues have been drained twice, every struct that was parked has been free for a new connection. |
| `ConnParked.StructsAreReused` | src/nxt_conn.c:49-133 | In every run, at some moment all the structs that were ever made were in use at once: none is made while one is free. |
| `TimerFires.NextEnabled` | src/nxt_timer.c:104-122 | After a step a timer is enabled only if the step adds it, or it was enabled and the step neither cancels it nor calls its handler; a handler is called only for an enabled timer. |
| `TimerFires.CalledOncePerAdd` | src/nxt_timer.c:330-344 | In every run, when the handler of a timer is called, the timer was added before, and since then it was not deleted, disabled or freed with its connection, and its handler was not called. |
| `ConnClose.NextKeeps` | src/nxt_conn_close.c:18-174 | Every close request and every handler keeps that at most one of them is on its way. |
| `ConnClose.ClosedOnce` | src/nxt_conn_close.c:18-174 | However often close is requested, the descriptor is closed at most once, the connection is untracked exactly then, the release handler is queued at most once and after that, and until then exactly one handler is on its way. |
| `ConnClose.CloseCompletes` | src/nxt_conn_close.c:18-174 | If the handlers run, a close request leads to the release. |
| `ConnClose.Connection.Close` | src/nxt_conn_close.c:18-82 | The request, on the fields it sets, is a step of the machine and keeps its invariant. |
| `ConnClose.Connection.OnShutdown` | src/nxt_conn_close.c:85-102 | So is the shutdown handler. |
| `ConnClose.Connection.OnClose` | src/nxt_conn_close.c:105-147 | So is the close handler, which releases at once or leaves that to the timer. |
| `ConnClose.Connection.OnTimer` | src/nxt_conn_close.c:150-174 | So is the timer handler. |
| `ConnTrack.Tracker.MakeIdle` | src/nxt_conn.h:338-353 | The tri-state field matches the queues; the counters stay balanced exactly when the connection was tracked. |
| `ConnTrack.Tracker.MakeActive` | src/nxt_conn.h:371-384 | Only an idle connection moves, and the balance is kept. |
| `ConnTrack.Tracker.Untrack` | src/nxt_conn.h:401-417 | A connection is counted as closed once, however often it is untracked. |
| `ConnTrack.Tracker.Accept` | src/nxt_conn_accept.c:266-269 | Accepting counts and tracks the connection. |
| `ConnTrack.Tracker.Replay` | src/nxt_conn.h:338-417 | After every sequence of these: accepted = closed + idle + active, the idle counter is the length of the idle queue, and the field of every connection names its queue. |
| `ControllerRuns.ProcessKeeps` | src/nxt_controller.c:1411-1620 | Running a request keeps the invariant of the controller. |
| `ControllerRuns.FlushKeeps` | src/nxt_controller.c:687-701 | A flush runs every waiting request and keeps it, although the requests can queue again or send messages. |
| `ControllerRuns.RpcReplyKeeps` | src/nxt_controller.c:3017-3067 | Every answer or error of the router keeps it. |
| `ControllerRuns.StoreReplyKeeps` | src/nxt_controller.c:2393-2435 | Every answer of main keeps it. |
| `ControllerRuns.DeathKeeps` | src/nxt_controller.c:585-606 | The death of a router keeps it. |
| `ControllerRuns.NextKeeps` | src/nxt_controller.c:497-701 | Every event keeps it, a router being announced only when nothing is at the one before. |
| `ControllerRuns.AnnounceIffQuiet` | src/nxt_controller.c:497-581 | An event keeps the invariant if and only if it is not an announcement of a router while a message to one is outstanding; then two messages are outstanding or a request runs again. |
| `ControllerRuns.NextPlaces` | src/nxt_controller.c:497-701 | No event loses a request. |
| `ControllerRuns.ControllerIsOrderly` | src/nxt_controller.c:1943-2080 | In every run: at most one operation is outstanding at the router and one at main, no request runs again while its message is outstanding, each is answered at most once, none is lost, and a waiting queue that is not empty has something that will flush it. |
| `ControllerAnswers.FlushDoes` | src/nxt_controller.c:687-701 | A flush answers only requests that need nothing from outside, that are refused, or that a status report is at hand for, and sends messages only for requests of the kind that needs them. |
| `ControllerAnswers.NextFollows` | src/nxt_controller.c:497-701 | Every answer, every message and every bundle that is held after an event follows from what the router or main says in it. |
| `ControllerAnswers.AnsweredWhenDue` | src/nxt_controller.c:3017-3106 | In every run, every answered request was answered in a step in which that was due. A configuration: refused, or the router declined it or its store could not be sent, or main answered its store and the router had taken it in an earlier step. Status and root: refused, or a report came, or its own request for one failed. Restart: refused or answered by the router. Upload of a bundle: refused or unchanged, or main failed to store it, or it was stored and need not or cannot be applied, or it was stored and the router answered. Deletes and scripts: refused or answered by main. Listings: nothing they list is at main. |
| `ControllerAnswers.DoneWhenEarned` | src/nxt_controller.c:3033-3049 | In every run, success was answered only in a step in which it was earned: for a configuration, main says that it is stored and the router had taken it; for the other changes, main or the router says so. |
| `ControllerAnswers.MainIsPassedOn` | src/nxt_controller.c:3076-3106 | An answer of main ends its request in the same step, with success if the store succeeded. |
| `ControllerAnswers.RouterIsPassedOn` | src/nxt_controller.c:3017-3067 | So does an answer of the router, except that a configuration it took goes to main. |
| `ControllerOrder.FlushInOrder` | src/nxt_controller.c:687-701 | A flush keeps the order of arrival, although every request of it may queue again. |
| `ControllerOrder.NoOvertaking` | src/nxt_controller.c:1943-1985 | In every run the waiting queue is in the order of arrival, and while anything is asked of the router or of main for a request, every request that arrived before it has been answered. |
| `ControllerHandlers.Handlers.CheckPostpone` | src/nxt_controller.c:1966-1985 | Whether a request has to wait. |
| `ControllerHandlers.Handlers.ProcessRequest` | src/nxt_controller.c:1411-1620 | The branches of a request, on the static variables. |
| `ControllerHandlers.Handlers.FlushRequests` | src/nxt_controller.c:687-701 | The loop over the queue that was taken aside is the fold of single requests. |
| `ControllerHandlers.Handlers.SendConf` | src/nxt_controller.c:524-563 | The first configuration is sent and awaited, or the waiting requests run. |
| `ControllerHandlers.Handlers.ApplyCert` | src/nxt_controller.c:2481-2526 | A stored bundle is sent to a ready router, or the request is answered and the others run. |
| `ControllerHandlers.Handlers.OnInitConf` | src/nxt_controller.c:638-684 | The answer to the first configuration is the machine's step for it, keeps the invariant, and leaves neither a configuration nor a stored bundle waiting. |
| `ControllerHandlers.Handlers.OnRouter` | src/nxt_controller.c:2044-2080 | The handlers of the router's answers, the status handler at these lines and those at 638-684, 2529-2564, 3017-3067 and 3227-3256, are the machine's step for an answer; `ControllerAnswers.AnsweredWhenDue` and `ControllerAnswers.RouterIsPassedOn` say what that step may and must do. |
| `ControllerHandlers.Handlers.OnMain` | src/nxt_controller.c:3076-3106 | The handlers of main's answers, the one at these lines and those at 2393-2475 and 2883-2953, are the machine's step for an answer. |
| `ControllerHandlers.Handlers.Handle` | src/nxt_controller.c:497-606 | Every handler on the static variables is a step of the machine and keeps the invariant. |
| `CertStore.NextKeeps` | src/nxt_controller.c:2393-2564 | Uploads, answers, rollbacks and deletes, one in flight at a time, keep that unmarked metadata describes its file. |
| `CertStore.EqualUploadIsSafe` | src/nxt_cert.c:591-608 | In every run of these, when nothing is in flight, unmarked metadata describes its file; so an upload that is skipped as equal would have written the same bundle. |
| `CertStore.FailedStoreRestores` | src/nxt_cert.c:663-685 | A failed store gives back the names there were and marks only its own. |
| `CertStore.FailedStoreCanDiffer` | src/nxt_cert.c:653-685 | The mark is needed: the file can hold the new bundle. |
| `CertStore.DeleteRemoves` | src/nxt_controller.c:2438-2475 | A delete that succeeds takes exactly its name out of the metadata and the files; one that fails leaves both as they were. |
| `CertStore.DeletedStaysDeleted` | src/nxt_cert.c:1156-1180 | In every run a deleted bundle is in neither until its name is uploaded again. |
| `CertStore.Metadata.IsEqual` | src/nxt_cert.c:591-608 | Equal means: known, not marked, same digest. |
| `CertStore.Metadata.Insert` | src/nxt_cert.c:631-651 | The name is found with its new metadata, every other name as before, and what was found before is handed back. |
| `CertStore.Metadata.PutBack` | src/nxt_cert.c:663-685 | The name is found again exactly if it was there, with its digest and marked, so that no upload of it counts as equal; every other name is as before. |
| `CertStore.Metadata.FailStore` | src/nxt_controller.c:2393-2416 | From upload to rollback only the mark of the name changes. |
| `CertStore.Metadata.Applied` | src/nxt_cert.c:612-622 | A repeated upload of the bundle counts as equal exactly if the router took it; nothing else changes. |
| `CertRuns.NextLogged` | src/nxt_controller.c:1943-1985 | Every event of the controller keeps that the bundle in flight by the log is the one outstanding at main or at the router. |
| `CertRuns.LogFits` | src/nxt_controller.c:2393-2564 | A log that fits is a run of the bundles with one in flight at a time. |
| `CertRuns.CertsAlongController` | src/nxt_controller.c:2214-2264 | Along every run of the controller the metadata describes the files, whatever becomes of each bundle, and when a request need not wait an upload equal to the metadata is equal to the file. |
| `Devpoll.CommitKeeps` | src/nxt_devpoll_engine.c:458-542 | A commit leaves the kernel and the hash as the interests say, and no event changing. |
| `Devpoll.RecordKeeps` | src/nxt_devpoll_engine.c:396-415 | A change that fits the new interest keeps the pending changes in step with it, also when the full batch is committed first. |
| `Devpoll.NextKeeps` | src/nxt_devpoll_engine.c:178-393 | Every interest call keeps this. |
| `Devpoll.BatchIsInterest` | src/nxt_devpoll_engine.c:178-542 | After every sequence of calls and commits, writing the pending changes gives exactly POLLIN for a read side and POLLOUT for a write side that is not inactive; the hash then has exactly the events with an interest; nothing fails. |
| `DevpollInterest.NextSide` | src/nxt_devpoll_engine.c:178-393 | Whatever is pending, a call takes each side of its event where the rule for one side says. |
| `DevpollInterest.SidesFollow` | src/nxt_devpoll_engine.c:178-393 | After every run of calls and commits the sides of every event are the fold of the calls by that rule. |
| `DevpollInterest.ActiveIsAsked` | src/nxt_devpoll_engine.c:178-393 | A side is active, or for one shot, exactly if the last call for it asked for that. |
| `DevpollInterest.KernelIsAsked` | src/nxt_devpoll_engine.c:458-542 | After every run that ends with a commit, the kernel polls a descriptor for exactly the sides that the fold leaves in its set, so at least for those that were asked for last, and the hash has exactly those descriptors. |
| `Devpoll.EnableFailsIffRegistered` | src/nxt_devpoll_engine.c:178-185 | enable() makes the next commit fail if and only if the event has an interest already. |
| `Devpoll.RunFailsIffImproper` | src/nxt_devpoll_engine.c:178-542 | Over every run: once all is committed nothing has failed if and only if no enable() met an event with an interest. |
| `Devpoll.EnabledTwiceFails` | src/nxt_devpoll_engine.c:178-185 | Enabling an event twice is a run that fails. |
| `Devpoll.CancelLeavesOthers` | src/nxt_devpoll_engine.c:427-455 | Without one event's changes the others come to what they came to before. |
| `Devpoll.Batch.CancelChanges` | src/nxt_devpoll_engine.c:427-455 | The compaction in place keeps exactly the other events' changes, in order. |
| `Devpoll.Batch.FillBuffer` | src/nxt_devpoll_engine.c:464-497 | The buffer gets one or two entries a change and has room for them. |
| `DevpollCalls.CommitSet` | src/nxt_devpoll_engine.c:396-415 | It does not matter whether a call writes the event before or after the commit of a full batch. |
| `DevpollCalls.Poller.HashChanges` | src/nxt_devpoll_engine.c:517-538 | The last loop leaves hash, events, kernel and error count as the fold over the changes says. |
| `DevpollCalls.Poller.CommitChanges` | src/nxt_devpoll_engine.c:458-542 | The whole commit. |
| `DevpollCalls.Poller.Change` | src/nxt_devpoll_engine.c:396-415 | A change is appended, after a commit if the batch is full. |
| `DevpollCalls.Poller.Enable` | src/nxt_devpoll_engine.c:178-185 | The call is a step of the machine. |
| `DevpollCalls.Poller.Disable` | src/nxt_devpoll_engine.c:188-198 | The call is a step of the machine. |
| `DevpollCalls.Poller.EnableRead` | src/nxt_devpoll_engine.c:246-279 | The call is a step of the machine. |
| `DevpollCalls.Poller.EnableWrite` | src/nxt_devpoll_engine.c:282-315 | The call is a step of the machine. |
| `DevpollCalls.Poller.DisableRead` | src/nxt_devpoll_engine.c:318-336 | The call is a step of the machine. |
| `DevpollCalls.Poller.DisableWrite` | src/nxt_devpoll_engine.c:339-357 | The call is a step of the machine. |
| `DevpollCalls.Poller.BlockRead` | src/nxt_devpoll_engine.c:360-366 | The call is a step of the machine. |
| `DevpollCalls.Poller.BlockWrite` | src/nxt_devpoll_engine.c:369-375 | The call is a step of the machine. |
| `DevpollCalls.Poller.OneshotRead` | src/nxt_devpoll_engine.c:378-384 | The call is a step of the machine. |
| `DevpollCalls.Poller.OneshotWrite` | src/nxt_devpoll_engine.c:387-393 | The call is a step of the machine. |
| `DevpollCalls.Poller.Cancel` | src/nxt_devpoll_engine.c:427-455 | The changes of the event are taken out; leaving early is right because an event that is not changing has none. |
| `DevpollCalls.CancelKeepsOthers` | src/nxt_devpoll_engine.c:417-455 | After that every other event is in step with the kernel, and no change names the event. |
| `EditDistance.NoCheaperScript` | src/nxt_conf_validation.c:2152-2206 | No script of insertions, deletions, substitutions and swaps of neighbours is cheaper than the recursive distance. |
| `EditDistance.CheapestScript` | src/nxt_conf_validation.c:2152-2206 | Some script costs exactly that. |
| `EditDistance.DistanceIsMinimum` | src/nxt_conf_validation.c:2142-2206 | So the distance is the minimum over all scripts. |
| `EditDistance.Compute` | src/nxt_conf_validation.c:2152-2206 | The three rolling rows compute the distance for names up to 64 bytes; longer names get SIZE_MAX. |
| `EditDistance.NotAMetric` | src/nxt_conf_validation.c:2152-2206 | The triangle inequality fails. |
| `DamerauDistance.NeverMore` | src/nxt_conf_validation.c:2142-2206 | The Damerau-Levenshtein distance, which the comment names, is at most the distance computed. |
| `DamerauDistance.SameUnlessTorn` | src/nxt_conf_validation.c:2142-2206 | The two are the same where no neighbours of one text stand exchanged in the other with something between them that is neither. |
| `DamerauDistance.MoreWhenTorn` | src/nxt_conf_validation.c:2142-2206 | For all such pairs by themselves the code counts one more. |
| `DamerauDistance.MoreWhenTornBack` | src/nxt_conf_validation.c:2142-2206 | The same with the texts exchanged. |
| `DamerauDistance.OneCase` | src/nxt_conf_validation.c:2142-2206 | From CA to ABC they differ. |
| `DamerauDistance.TornAndSame` | src/nxt_conf_validation.c:2142-2206 | Within longer texts they can be the same although a pair is torn. |
| `EditDistance.ScanEnds` | src/nxt_conf_validation.c:2216-2272 | The best and second best of the scan decide as the definition does. |
| `EditDistance.Suggest` | src/nxt_conf_validation.c:2216-2272 | A name is suggested exactly when it is strictly nearest over all chained tables and within both thresholds. |
| `ConfPointer.TokensOfRendered` | src/nxt_conf_validation.c:2052-2068 | A rendered pointer has exactly the reference tokens of its path under sections 3 and 4 of RFC 6901, for all byte strings. |
| `ConfPointer.Size` | src/nxt_conf_validation.c:2026-2041 | The size pass counts the length of the pointer within SIZE_MAX, so that a size_t does not wrap, or stops only when it is SIZE_MAX or more. |
| `ConfPointer.FillSegment` | src/nxt_conf_validation.c:2055-2066 | The backward loop writes one escaped segment ending where the next begins. |
| `ConfPointer.RenderPointer` | src/nxt_conf_validation.c:2003-2069 | Size pass and backward fill agree exactly: the buffer is the pointer. |
| `ConfPointer.DecimalOfText` | src/nxt_conf_validation.c:1929-1939 | The printed index of an element is an array index of RFC 6901 and means that element. |
| `ConfPointer.FirstBadIsBad` | src/nxt_conf_validation.c:1908-1993 | The walk declines exactly when some string or member name is not valid, and its path leads to what is wrong. |
| `ConfPointer.FirstBadIsFirst` | src/nxt_conf_validation.c:1908-1993 | That is the first failing text in document order. |
| `ConfPointer.ParsedIsUnique` | src/nxt_conf.c:1634-1818 | A parsed configuration has unique names, so the pointer is unambiguous. |
| `ConfPointer.Validation.CheckString` | src/nxt_conf_validation.c:1893-1905 | A text that is not valid renders the current path. |
| `ConfPointer.Validation.CheckValue` | src/nxt_conf_validation.c:1908-1993 | The walk leaves the path stack as it found it and reports the first failure. |
| `ConfPointer.Validation.CheckElements` | src/nxt_conf_validation.c:1927-1950 | The loop over an array. |
| `ConfPointer.Validation.CheckMembers` | src/nxt_conf_validation.c:1952-1988 | The loop over an object: the name is checked before it becomes a segment. |
| `ConfPointer.ValidateEncoding` | src/nxt_conf_validation.c:1996-2069 | The pointer in the report evaluates to the first offending string, or to the object with the offending name. |
| `StatusReader.ScanHex` | src/nxt_capability.c:204-223 | The 64-bit accumulator has the value of up to sixteen digits. |
| `StatusReader.StatusLine` | src/nxt_capability.c:177-232 | What a line says: nothing, a malformed set, or the bits of a set. |
| `StatusReader.SetNames` | src/nxt_capability.c:177-200 | The sets looked at are CapPrm, CapEff and CapAmb. |
| `StatusReader.SetReads` | src/nxt_capability.c:204-223 | For every n, its digits in either case after a name and any blanks read as n if there are one to sixteen, and as malformed otherwise. |
| `StatusReader.SetWasWritten` | src/nxt_capability.c:177-232 | A line that is read as a set was written so. |
| `StatusReader.HeldMeans` | src/nxt_capability.c:370-383 | The answer is known exactly if no counted line is malformed and two are there; then something is held exactly if some set is not empty. |
| `StatusReader.LinesAreTheFile` | src/nxt_capability.c:277-347 | The lines are the file cut at its newlines, the unterminated last line included. |
| `StatusReader.Reader.Digest` | src/nxt_capability.c:313-346 | One buffer: the lines that end in it are folded in, the rest is carried over or, when it fills the buffer, skipped. |
| `StatusReader.ProcStatusHeld` | src/nxt_capability.c:272-383 | For every way to cut the file into reads, with any interruptions, the answer is that of folding exactly the lines shorter than the buffer; every read asks for at least one byte; only an error of read() makes it unknown. |

## Left out

- DamerauDistance.SameUnlessTorn: the condition is sufficient; it is exact for a torn pair by itself, and TornAndSame shows that within longer texts it is not necessary.
- AppQueue: the receive without a claim, which no caller in the model uses, and a body shorter than the tracking word.
- AppQueue: positions are unbounded here; the 32-bit counters are connected to them for the inner queue and for the doorbell decision only.
- AppQueue: a worker that ends while it has an item in hand.
- AppQueue: the order in which the depth loads tail and head is fixed as tail, then head.
- Nncq, AppQueue: the retry loops are steps of threads and not loops, because other threads run between their accesses.
- Weak memory: the loads and compare-and-sets are steps of a sequentially consistent machine.
- JSON: error texts and positions, and the two representations of strings in memory. How a pretty-printed text is laid out is in the model, but the theorems are about what it reads as.
- ConfClone.EditConf: paths with an empty token and edits whose last parent is a scalar are not covered; the compiler is not made for them.
- ConnRuns.NoUseAfterRecycle: covers the mode in which the engine has a memory pool; without one structs are not recycled.
- ConnRuns: nxt_conn_create(), nxt_conn_free() and the drain loop are steps on values; the list walk, the queue scan and the timer batch are also written as they update their arrays and links.
- Timers: the times themselves, so whether a timer is near enough to be left alone is an input.
- ConnTrack: the order of connections within the idle and active queues is kept by the model but not stated.
- Controller: requests are numbers and the waiting queue is a sequence; links within the requests, memory pools and the texts of answers are not modelled, only whether an answer says success.
- Controller: a message to main that fails at once is treated as a refused request, and the checks of a request's content are one input per run.
- CertStore: a bundle is its digest; the chain inside it and the script store are not modelled.
- Devpoll: a write to the kernel that fails, and the poll itself.
- EditDistance.Suggest: the tables are data here; the contents of the schema are not modelled.
- ConfPointer: allocation of the pointer's buffer does not fail, and an index is not limited to ten digits.
- StatusReader.ProcStatusHeld: opening the file and the check that it is procfs come before it and are not modelled.
- Memory pools and allocation failure, sockets, files, processes and TLS are not part of these models, nor are the range checks of single configuration options.
