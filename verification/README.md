# Verified models of a wireless driver and its companion libraries

This project models the parts of the repository that hold real algorithms, in Dafny 4.11, and proves
what they are for. `dafny verify dfyconfig.toml` checks all of it.

- **Block Ack reordering** (`ReorderSpec`, `BlockList`, `ReorderEngine`, `ReorderWide`, `ReorderRuns`, `ReorderExact`):
  a received frame is held back until the frames before it have come, with 12-bit sequence numbers, one
  sorted linked list per session and one shared pool of blocks. `ReorderSpec` says what each entry point
  does to a session as a value, `BlockList` and `ReorderEngine` do it on the heap by relinking blocks,
  `ReorderWide` is the same machine on unbounded numbers, `ReorderRuns` proves ordering and
  conservation over whole runs, and `ReorderExact` says where each step leaves the position. A session is
  *live* when it is reset and empty, or when its waiting frames ascend strictly with distances from the last
  indicated number between 2 and the window.
- **Block Ack session tables** (`SessionSpec`, `SessionExact`, `BaTable`): originator and recipient entries,
  the index arrays and bitmaps of each station, the counters, and what each operation does to the standing of
  a station and TID.
- **cJSON** (`JsonSpec`, `JsonRoundTrip`, `JsonMinify`, `JsonStrings`, `JsonBuffers`, `JsonTree`,
  `JsonLiterals`, `JsonSpaced`, `JsonLayout`, `JsonSamples`, `JsonParser`): the parser and the two printers as
  functions on texts, the same over buffers with measured allocations, string literals piece by piece, texts
  with blanks and comments, the layout of the formatted print, the in-place minifier, and items with linked
  children on the heap.
- **MD5** (`Bytes`, `Md5Spec`, `Md5Block`, `Md5`, `Md5Samples`): the streaming digest against the one-shot
  definition of sections 3.1 to 3.5 of RFC 1321, and a digest of its appendix A.5.
- **TKIP** (`MichaelSpec`, `Michael`, `MichaelSamples`, `TkipTables`, `TkipSbox`, `TkipMixSpec`, `TkipMix`,
  `TkipSamples`): the Michael code of section 8.3.2.3 and the key mixing of section 8.3.2.5 of IEEE 802.11i-2004,
  with test vectors published with it, and the substitution tables against section 5.1.1 of FIPS 197.
- **Data path** (`MacSpec`, `MacExact`, `MacAgreement`, `MacTable`, `TxQueue`, `TxLaws`, `Amsdu`, `AmsduHeaders`,
  `Rssi`): the hash-chained station table, the aggregating transmit loop, splitting of A-MSDUs
  (section 8.3.2.2 of IEEE 802.11-2012), and the running average of the signal strength.

`Options` and `Sequences` hold what several of these share.

Entry points are atomic steps. Timers, clocks, the state of the radio and the answers of other parts of
the driver are parameters; packets are opaque identities, and handing a packet on appends it to a log.

Where the code does less than its purpose asks, the model keeps the code and states the exact condition:

- Frames can go up out of turn or twice when a frame finds no free block (or is an EAP frame) while it or
  its successor waits, and when a BlockAckReq starts at a waiting frame. `ReorderRuns.StepIsOrderlyIffClean`
  and `ReorderRuns.RunIsInOrderIffClean` show these are the only ways, and two lemmas give the runs.
- An EAP frame that takes the way past the list does not give its block back. `ReorderSpec.Arrive` says
  exactly when, and such frames alone can empty the pool (`ReorderRuns.EapFramesEmptyThePool`).
- A station whose tear-down notice cannot be allocated keeps its session
  (`SessionSpec.TearDownAllClearsIff`); `SessionSpec.SessionOutlivesTearDown` is a table with one.
- The block loop of `MD5Update` keeps its variable in 32 bits, so for a single chunk of nearly 2^32 bytes
  it does not end. `Md5.LoopEndsIffChunkFits` gives the condition, `Md5.LongestChunkNeverEnds` a chunk.
- A station lookup need not find the lowest of two entries with one address: it does, over a run, exactly
  while each insertion and deletion meets a condition on the table before it
  (`MacAgreement.RunAgreesIffSafe`); `MacSpec.RepeatedAddressIsFoundHigher` is a run that does not.
- The A-MSDU splitter still announces a subframe whose padded size is out of range and only then stops
  (`Amsdu.SplitIsCompleteIff`); a payload that keeps its LLC/SNAP header is announced without an Ethernet
  header (`Amsdu.AnnouncedAreEthernetIff`); and a last payload too short for that header can be read past
  the end of the frame (`Amsdu.ReadsInsideIff`). Lemmas beside them give the frames.
- Signal strength chains 1 and 2 take over their first sample only if chain 0 has not sampled before, or
  the sample is 0 or -1 (`Rssi.LateChainsStart`); if chain 0 never samples they do not average
  (`Rssi.SilentFirstChain`).
- The count of packets sent from a queue in one call is a byte, so with a limit near 256 a batch can carry it past
  the limit and on from 0 (`TxLaws.LimitKept`, `TxLaws.PairsPassTheLimit`); the limit the driver passes is 4.
- The minifier steps past the NUL of a text with an unclosed string literal or block comment
  (`JsonMinify.UnclosedOverruns`).

## Model

| member | source | states |
|---|---|---|
| ReorderSpec.Position | driver/wireless/common/ba_action.c:153-180 | where the sorted insertion stops: every frame before that place precedes the new number in serial order, the frame at it does not |
| ReorderSpec.Insert | driver/wireless/common/ba_action.c:153-180 | a frame whose number is already waiting adds nothing, any other adds exactly one |
| ReorderSpec.GrantedWindow | driver/wireless/common/ba_action.c:650-700 | the window granted to a peer: the smaller of the size asked for and our limit, both as bytes, and 64 when that is 0 |
| ReorderSpec.Flush | driver/wireless/common/ba_action.c:433-485 | the timeout flush keeps the window, and every frame that leaves the list gives its block back |
| ReorderSpec.Enqueue | driver/wireless/common/ba_action.c:1620-1680 | blocks and waiting frames keep their total, except that an EAP frame that found a block loses it |
| ReorderSpec.Slide | driver/wireless/common/ba_action.c:1795-1847 | moving the window loses one block exactly for an EAP frame that finds a block, free before or freed by the move |
| ReorderSpec.Arrive | driver/wireless/common/ba_action.c:1733-1847 | free blocks plus waiting frames stay the same, less one exactly for an EAP frame ahead of its turn that finds a block (condition `Lost`, on the state before) |
| ReorderSpec.IndicateAmpdu | driver/wireless/common/ba_action.c:1700-1847 | a data frame never changes the window; blocks are conserved except for that one, judged after the size check and the flush |
| ReorderSpec.Bar | driver/wireless/common/ba_action.c:1448-1453 | a BlockAckReq turns every waiting frame it removes into a free block |
| BlockList.List.Enqueue | driver/wireless/common/ba_action.c:186-194 | a block put on an empty or non-empty list becomes its head; count, links and contents agree afterwards |
| BlockList.List.Dequeue | driver/wireless/common/ba_action.c:196-213 | the head block leaves, its link is cut, and the rest of the list is the old tail |
| BlockList.List.InsertSorted | driver/wireless/common/ba_action.c:153-180 | relinking in place equals the value-level sorted insertion, a duplicate is refused, and the answer says which of the two happened |
| BlockList.List.FootprintSize | driver/wireless/common/ba_action.c:186-213 | the blocks owned by a list are as many as its count says |
| BlockList.DistinctInsert | driver/wireless/common/ba_action.c:153-180 | an insertion anywhere keeps a list free of repeated blocks |
| ReorderEngine.Engine.constructor | driver/wireless/common/ba_action.c:271-312 | after initialisation every block is in the free list, every session is empty, and the pool is whole |
| ReorderEngine.Engine.Alloc | driver/wireless/common/ba_action.c:317-330 | a block is handed out exactly when the pool is not empty, and no session changes |
| ReorderEngine.Engine.Release | driver/wireless/common/ba_action.c:333-338 | a block given back adds one free block and changes no session |
| ReorderEngine.Engine.AnnounceHead | driver/wireless/common/ba_action.c:344-376 | the head frame is announced and its block freed, in one session only |
| ReorderEngine.Engine.IndicateInOrder | driver/wireless/common/ba_action.c:344-376 | announces exactly the leading run of consecutive numbers, in list order, and returns the last of them |
| ReorderEngine.Engine.IndicateUpTo | driver/wireless/common/ba_action.c:378-404 | announces exactly the leading frames at or before the given number |
| ReorderEngine.Engine.RefreshSession | driver/wireless/common/ba_action.c:407-429 | announces everything waiting, in order, and resets the position |
| ReorderEngine.Engine.FlushTimeout | driver/wireless/common/ba_action.c:433-485 | does to the session on the heap what the value-level flush does, for every answer of the two clock comparisons |
| ReorderEngine.Engine.EnqueuePacket | driver/wireless/common/ba_action.c:1620-1680 | both branches (block found or not, EAP or not) do what the value-level step does |
| ReorderEngine.Engine.Arrival | driver/wireless/common/ba_action.c:1733-1847 | the five-way comparison of a data frame, its draining loops and window move, refine the value-level step; the blocks out of the pool grow by one exactly when the frame loses one |
| ReorderEngine.Engine.BlockAckReq | driver/wireless/common/ba_action.c:1448-1453 | a BlockAckReq refines the value-level step |
| ReorderEngine.Engine.IdleTimeout | driver/wireless/common/ba_action.c:1184-1210 | the idle timer refreshes the session exactly when it has expired |
| ReorderEngine.Engine.Open | driver/wireless/common/ba_action.c:650-742 | opening a session still in use flushes it first; window and position are set, the pool stays whole |
| ReorderEngine.Engine.Close | driver/wireless/common/ba_action.c:980-1070 | closing a session announces what is waiting and leaves no block in its list |
| ReorderEngine.Engine.ReleasePending | driver/wireless/common/ba_action.c:233-264 | unloading releases every waiting frame and returns every block |
| ReorderEngine.Engine.WholeKept | driver/wireless/common/ba_action.c:317-338 | a step that trades blocks with one session only keeps the whole pool accounted for |
| ReorderEngine.Engine.WholeMeansAccounted | driver/wireless/common/ba_action.c:317-338 | in a whole pool every block is in exactly one place: free, taken out, or in one list |
| ReorderWide.SmallerIsLess | driver/wireless/include/mlme.h:952-952 | serial comparison of 12-bit numbers is the order of unbounded numbers less than half a circle apart |
| ReorderWide.StepOneIsNext | driver/wireless/include/mlme.h:951-951 | the step-one test is succession of unbounded numbers |
| ReorderWide.InsertIsPut | driver/wireless/common/ba_action.c:153-180 | sorted insertion by serial comparison is insertion into an ascending list of unbounded numbers; the duplicate test is membership |
| ReorderWide.ReleaseRefines | driver/wireless/common/ba_action.c:378-404 | releasing up to a 12-bit number is releasing up to an unbounded one |
| ReorderWide.DrainRefines | driver/wireless/common/ba_action.c:344-376 | draining 12-bit numbers in order is draining consecutive unbounded ones |
| ReorderWide.EnqueueRefines | driver/wireless/common/ba_action.c:1620-1680 | queueing, and the way past the list, refine the unbounded machine |
| ReorderWide.SlideRefines | driver/wireless/common/ba_action.c:1795-1847 | moving the window refines the unbounded machine; a frame past the new window is queued exactly when it is not EAP and a block is free, before or by the move |
| ReorderWide.ArriveRefines | driver/wireless/common/ba_action.c:1733-1847 | a data frame does to the 12-bit session what its number does to the unbounded machine, and it gets a block exactly when the state before it says so |
| ReorderWide.BarRefines | driver/wireless/common/ba_action.c:1448-1453 | so does a BlockAckReq |
| ReorderWide.NudgeRefines | driver/wireless/common/ba_action.c:433-485 | so does the short timeout |
| ReorderWide.ArriveIsFine | driver/wireless/common/ba_action.c:1733-1847 | on unbounded numbers, an arrival delivers in order and keeps the window shape exactly when it is clean |
| ReorderWide.BarIsFine | driver/wireless/common/ba_action.c:1448-1453 | likewise a BlockAckReq: exactly when its start number is not waiting |
| ReorderRuns.StepIsOrderlyIffClean | driver/wireless/common/ba_action.c:344-485 | main result: one step of a live session that has a position (what waits strictly ascending, at distances from it between 2 and the window) keeps it live and hands up strictly increasing new numbers if and only if a condition on the session, the free count and the frame holds before the step |
| ReorderRuns.TimeoutIsOrderly | driver/wireless/common/ba_action.c:433-485 | no timeout, of either kind, ever breaks the order |
| ReorderRuns.DataIsOrderlyIffClean | driver/wireless/common/ba_action.c:1620-1847 | a data frame breaks it exactly when it must pass the list while it or its successor waits there |
| ReorderRuns.BarIsOrderlyIffClean | driver/wireless/common/ba_action.c:1394-1456 | a BlockAckReq breaks it exactly when its start number is waiting |
| ReorderRuns.RunKeepsOrder | driver/wireless/common/ba_action.c:344-485 | over any clean run, of any length and any number of wraps, the unwrapped numbers handed up between two resets strictly increase, and the session stays live |
| ReorderRuns.RunIsInOrderIffClean | driver/wireless/common/ba_action.c:344-485 | main result: over every run from any live session, reset or not, the session is live and every epoch in order after each prefix if and only if each step is clean in the session it meets |
| ReorderRuns.FreshSessionIsInOrder | driver/wireless/common/ba_action.c:407-429 | a session just opened starts such a run |
| ReorderRuns.BarForWaitingFrameRepeatsIt | driver/wireless/common/ba_action.c:1448-1453 | a concrete run: a BlockAckReq for a waiting frame makes its retransmission go up a second time |
| ReorderRuns.NoBlockStrandsSuccessor | driver/wireless/common/ba_action.c:1664-1678 | a concrete run: a frame that finds no block strands its waiting successor, which later goes up out of turn |
| ReorderRuns.QueueFitsWindow | driver/wireless/common/ba_action.c:1655-1662 | the asserted bound: right after queueing, the list is no longer than the window, on both paths to it |
| ReorderRuns.StepConserves | driver/wireless/common/ba_action.c:1620-1847 | every step, clean or not, EAP or not, with or without a free block, passes on, releases or keeps each packet exactly once |
| ReorderRuns.StageConserves | driver/wireless/common/ba_action.c:650-1070 | so do opening and reopening, closing, unloading, and the refusal of a frame that is too long |
| ReorderRuns.RunConserves | driver/wireless/common/ba_action.c:233-485 | over any run through whole lifetimes of a session, packets received are packets out plus packets waiting, as multisets |
| ReorderRuns.IndicateAmpduIsTwoTurns | driver/wireless/common/ba_action.c:1700-1740 | a data frame is one stage of such a run when it is too long, and otherwise a timeout turn followed by an arrival turn |
| ReorderRuns.EapFrameLosesItsBlock | driver/wireless/common/ba_action.c:1664-1678 | a concrete step that loses a block |
| ReorderRuns.EapFramesEmptyThePool | driver/wireless/common/ba_action.c:1664-1678 | a family of runs, for any number of blocks: as many EAP frames, each one number ahead of its turn, leave no block |
| ReorderExact.ArriveReaches | driver/wireless/common/ba_action.c:1733-1847 | a clean data frame leaves the position at the first gap from what it forces on, hands up what was received before it, and keeps the rest |
| ReorderExact.BarReaches | driver/wireless/common/ba_action.c:1448-1453 | so does a BlockAckReq |
| ReorderExact.NudgeReaches | driver/wireless/common/ba_action.c:433-485 | so does the short timeout |
| ReorderExact.ResetHandsUpAll | driver/wireless/common/ba_action.c:407-485 | the long timeout and the idle timer hand up everything that waits, in order, and leave the session empty and reset |
| ReorderExact.StepStopsAtFirstGap | driver/wireless/common/ba_action.c:344-485 | main result: after every other clean step of a live session the position is the first number, from the step's goal on, whose successor has not been received; of what was received exactly the numbers up to it went up, and exactly the rest waits |
| ReorderExact.TurnLosesNothing | driver/wireless/common/ba_action.c:1733-1847 | a frame in reach that finds a block gives up on no missing number |
| ReorderExact.RunLosesNothing | driver/wireless/common/ba_action.c:1733-1847 | main result: as long as frames come no further ahead than the window and find a block, every number up to the position goes up, once and in order, whatever order the frames came in |
| ReorderExact.TimeoutsEmptyWithin | driver/wireless/common/ba_action.c:433-485 | as many short timeouts as the last waiting number is away empty the list |
| ReorderExact.WindowOfTimeoutsEmpties | driver/wireless/common/ba_action.c:433-485 | so do as many as the window is wide, however the numbers lie |
| SessionSpec.FirstFreeOri | driver/wireless/common/ba_action.c:781-813 | the allocation scan stops at the lowest free entry, or at the end when there is none |
| SessionSpec.AgreedWindow | driver/wireless/common/ba_action.c:573-648 | the agreed window: the least of what was asked, what is allowed, and the peer's buffer as a byte less one; 0 for a buffer of 0 |
| SessionSpec.EmptyIsConsistent | driver/wireless/common/ba_action.c:271-312 | the initial tables are consistent |
| SessionSpec.OriSetUpKeeps | driver/wireless/common/ba_action.c:492-571 | a set-up keeps slots and entries one to one and the counters equal to the entry counts |
| SessionSpec.OriAddKeeps | driver/wireless/common/ba_action.c:573-648 | so does the peer's agreement; the bitmap bit is set exactly for Done |
| SessionSpec.OriFreeKeeps | driver/wireless/common/ba_action.c:816-853 | so does freeing an originator entry |
| SessionSpec.OriTimeoutKeeps | driver/wireless/common/ba_action.c:1100-1181 | so does the set-up timer |
| SessionSpec.RecAddKeeps | driver/wireless/common/ba_action.c:650-742 | so does accepting a session |
| SessionSpec.RecRemoveKeeps | driver/wireless/common/ba_action.c:856-883 | so does freeing a recipient entry |
| SessionSpec.RecAddAgain | driver/wireless/common/ba_action.c:650-742 | accepting a session already in place changes only the declined bit |
| SessionSpec.OriScanFindsIffGuardPasses | driver/wireless/common/ba_action.c:781-813 | in consistent tables the scan finds an entry if and only if the counter guard passes |
| SessionSpec.RecScanFindsIffGuardPasses | driver/wireless/common/ba_action.c:745-778 | the same for recipients |
| SessionSpec.ApplyKeeps | driver/wireless/common/ba_action.c:492-883 | every operation keeps the tables consistent |
| SessionSpec.AnyRunLeavesRoomIffCounted | driver/wireless/common/ba_action.c:492-1083 | after any run of operations the tables are consistent, and both scans succeed exactly when the counters say so |
| SessionSpec.TearDownLeaves | driver/wireless/common/ba_action.c:886-1083 | after tearing a station down, TID by TID and in each direction, a session is left exactly if it was agreed and its notice could not be allocated |
| SessionSpec.TearDownAllClearsIff | driver/wireless/common/ba_action.c:1072-1083 | no entry names the station any more if and only if the notice could be allocated for each agreed session |
| SessionSpec.SessionOutlivesTearDown | driver/wireless/common/ba_action.c:943-972 | a concrete table: an agreed session whose notice cannot be allocated is still there after the tear-down |
| SessionExact.SetUpAsks | driver/wireless/common/ba_action.c:492-571 | a permitted set-up asks once if nothing is going on for the TID and an entry is left; any other changes nothing, and no other station or TID is touched |
| SessionExact.AgreementAnswers | driver/wireless/common/ba_action.c:573-648 | the peer's agreement turns an open request, and nothing else, into a session with the agreed window |
| SessionExact.FreeEnds | driver/wireless/common/ba_action.c:816-853 | freeing an entry ends what its station and TID had as originator, and nothing else |
| SessionExact.OriTearDownEnds | driver/wireless/common/ba_action.c:886-977 | a tear-down as originator ends it, unless a session is agreed, the peer is to be told, and the notice cannot be allocated |
| SessionExact.TimerAsksAgain | driver/wireless/common/ba_action.c:1100-1181 | the timer of an open request asks again, unless a scan is on, up to its last retry; then, and for any other entry, it ends what station and TID have |
| SessionExact.RequestAccepted | driver/wireless/common/ba_action.c:650-742 | a request of the peer is accepted exactly if it was already or an entry is left; acceptance takes an earlier refusal back |
| SessionExact.RemoveEnds | driver/wireless/common/ba_action.c:856-883 | freeing a recipient entry ends that session and nothing else |
| SessionExact.RecTearDownEnds | driver/wireless/common/ba_action.c:980-1070 | a tear-down as recipient ends the session, unless the peer is to be told and the notice cannot be allocated |
| BaTable.Table.OriSessionSetUp | driver/wireless/common/ba_action.c:492-571 | the arrays and counters move as the value-level step says, and stay consistent |
| BaTable.Table.OriSessionAdd | driver/wireless/common/ba_action.c:573-648 | the same for the peer's agreement |
| BaTable.Table.AllocRec | driver/wireless/common/ba_action.c:745-778 | fails exactly when the guard forbids it, otherwise takes the lowest free entry and counts it |
| BaTable.Table.FreeOriEntry | driver/wireless/common/ba_action.c:816-853 | the same for freeing an originator entry |
| BaTable.Table.OriSessionTearDown | driver/wireless/common/ba_action.c:886-977 | the same for originator tear-down |
| BaTable.Table.OriSetupTimeout | driver/wireless/common/ba_action.c:1100-1181 | the same for the set-up timer |
| BaTable.Table.RecSessionAdd | driver/wireless/common/ba_action.c:650-742 | the same for acceptance, together with the reordering session: its window is the granted one and its position is reset |
| BaTable.Table.FreeRecEntry | driver/wireless/common/ba_action.c:856-883 | a freed recipient entry is vacant and uncounted, and its station's slot is cleared |
| BaTable.Table.RecSessionTearDown | driver/wireless/common/ba_action.c:980-1070 | tear-down flushes exactly the session it frees; nothing else moves |
| BaTable.Table.IndicateAmpduPacket | driver/wireless/common/ba_action.c:1700-1847 | the frame meets the session that its station and TID name, and no other; without a session it goes up directly; from an unknown station, or too long, it is released |
| BaTable.Table.CntlEnqueueForRecv | driver/wireless/common/ba_action.c:1394-1456 | a BlockAckReq moves the named session and no other, or is refused and moves nothing |
| BaTable.Table.RecSessionIdleTimeout | driver/wireless/common/ba_action.c:1184-1210 | the idle timer acts on accepted sessions only |
| BaTable.Table.MaintainStation | driver/wireless/common/ba_action.c:1868-1873 | one station's share: each of its sessions is flushed once, and what the flushes release goes up in TID order |
| BaTable.Table.BaReOrderingBufferMaintain | driver/wireless/common/ba_action.c:1850-1876 | the periodic pass flushes every accepted session of every present station once and no other; the log grows by the outputs of these flushes, in order |
| BaTable.Table.ResourceRelease | driver/wireless/common/ba_action.c:233-264 | unloading releases every waiting frame of every session, in table order |
| JsonSpec.SkipTakesBlanks | src/json/cJSON.c:261-261 | skipping takes off a prefix of characters up to the blank, all of them, and nothing else |
| JsonSpec.ParseValue | src/json/cJSON.c:287-298 | a parsed value always consumes text |
| JsonRoundTrip.NumberRoundTrip | src/json/cJSON.c:96-138 | every C int printed in decimal reads back as itself, whatever may follow it in a document |
| JsonRoundTrip.StringRoundTrip | src/json/cJSON.c:155-250 | every string without NUL, escaped and quoted, reads back as itself |
| JsonRoundTrip.ValueRoundTrip | src/json/cJSON.c:287-507 | every tree, at any depth, formatted or not, reads back as itself and leaves what follows |
| JsonRoundTrip.ParseUndoesPrint | src/json/cJSON.c:264-284 | main result: parsing either printer's output returns the same tree: types, values, names and order |
| JsonRoundTrip.PrintHasNoNul | src/json/cJSON.c:302-317 | no printer puts a NUL into its text, so the text is all of the C string |
| JsonSpaced.MemberRead | src/json/cJSON.c:411-437 | a name, any blanks, a colon, any blanks, and then whatever is read there |
| JsonSpaced.DocRead | src/json/cJSON.c:287-437 | a document with any blanks at every place between its tokens reads as its tree and leaves what follows |
| JsonSpaced.ParseReadsSpaced | src/json/cJSON.c:264-280 | main result: so does cJSON_Parse, blanks in front included |
| JsonSpaced.UnclosedArrayFails | src/json/cJSON.c:320-345 | after the items of an array anything but a comma or a closing bracket is an error |
| JsonSpaced.TrailingCommaFails | src/json/cJSON.c:320-345 | so is a comma with no value behind it |
| JsonSpaced.UnclosedObjectFails | src/json/cJSON.c:406-439 | after the members of an object anything but a comma or a closing brace is an error |
| JsonSpaced.MissingColonFails | src/json/cJSON.c:406-439 | so is a name with anything but a colon behind it, in the first member or a later one |
| JsonSpaced.NoValueFails | src/json/cJSON.c:287-298 | a text that starts like no value is an error |
| JsonSpaced.DocMinified | src/json/cJSON.c:581-596 | minifying a document with any blanks and comments between its tokens leaves the unformatted print of its tree |
| JsonSpaced.MinifyStripsComments | src/json/cJSON.c:581-596 | main result: so for a whole text, gaps in front and behind included, and what is left parses to the tree |
| JsonLayout.ValueLaidOut | src/json/cJSON.c:302-507 | the formatted text of a value is its unformatted text laid out token by token, at any depth |
| JsonLayout.FormattedIsLaidOut | src/json/cJSON.c:283-284 | main result: cJSON_Print of every tree is cJSON_PrintUnformatted laid out: which tokens end a line, how far the next one is indented, and where a blank or a tab stands |
| JsonSamples.Numbers | src/json/cJSON.c:118-138 | how numbers are spelled |
| JsonSamples.Escapes | src/json/cJSON.c:215-248 | how each escaped character is spelled |
| JsonSamples.Items | src/json/cJSON.c:348-403 | an array of one item of each kind, as each printer spells it |
| JsonSamples.Nested | src/json/cJSON.c:442-507 | an object in an object, its member one tab further in |
| JsonMinify.MinifyInPlace | src/json/cJSON.c:581-596 | the loop over the buffer leaves the minified text and a NUL, writes never pass reads, and what lies behind the old NUL is untouched |
| JsonMinify.MinifyStep | src/json/cJSON.c:584-594 | what one turn of the loop does, at any place from which the scan does not overrun |
| JsonMinify.CopyLiteral | src/json/cJSON.c:592-592 | a string literal, escapes included, is moved down unchanged although source and target overlap |
| JsonMinify.MinifyValue | src/json/cJSON.c:302-317 | minifying any printed value, formatted or not, leaves its unformatted text |
| JsonMinify.MinifyMapsPrinters | src/json/cJSON.c:581-596 | main result: minifying the formatted print is the unformatted print |
| JsonMinify.MinifyKeepsMeaning | src/json/cJSON.c:581-596 | and parsing after minifying returns the same tree |
| JsonMinify.MinifyPrinted | src/json/cJSON.c:581-596 | main result, in place: the buffer of a printed tree becomes the C string of its unformatted print, parses to the same tree, and keeps what lies behind |
| JsonMinify.UnclosedOverruns | src/json/cJSON.c:588-592 | two concrete texts on which the scan steps past the NUL |
| JsonStrings.Utf8DecodesBack | src/json/cJSON.c:187-196 | the bytes written for a number decode to it, under a strict UTF-8 decoder, if and only if it is a scalar value |
| JsonStrings.BasicEscape | src/json/cJSON.c:174-197 | every nonzero scalar of the basic plane written as one escape becomes its UTF-8 form |
| JsonStrings.PairEscape | src/json/cJSON.c:179-185 | every scalar above it written as a surrogate pair becomes its UTF-8 form |
| JsonStrings.FourDigitsRead | src/json/cJSON.c:140-151 | four hexadecimal digits are read as their number, high digit first |
| JsonStrings.ShortEscapesAre | src/json/cJSON.c:166-173 | what each short escape stands for |
| JsonStrings.BodyFits | src/json/cJSON.c:157-163 | the bytes a literal stands for never exceed what the counting loop counted |
| JsonStrings.CountBody | src/json/cJSON.c:160-160 | the counting loop |
| JsonStrings.PutUtf8 | src/json/cJSON.c:187-196 | writing from the last byte backwards leaves the UTF-8 form and nothing else before the new end |
| JsonStrings.TakeUnit | src/json/cJSON.c:174-197 | one escape handled over the buffer: bytes written and place reached are those of the value-level function |
| JsonStrings.ParseStringLiteral | src/json/cJSON.c:155-212 | count, allocate and fill return what the value-level parser returns; every write is inside the counted room |
| JsonLiterals.PieceRead | src/json/cJSON.c:164-199 | a raw byte, a short escape, a basic escape, a surrogate pair or a stray unit contributes exactly its meaning, whatever follows |
| JsonLiterals.BodyMeans | src/json/cJSON.c:155-212 | main result: a literal of any such pieces in any order reads as their meanings in order, every escape or pair as UTF-8, and what follows the closing quote is left |
| JsonLiterals.BodySplits | src/json/cJSON.c:155-212 | main result: and every body that is read at all is such a sequence of pieces, closed by a quote or the end of the text |
| JsonLiterals.LiteralMeans | src/json/cJSON.c:287-298 | so does a whole value |
| JsonLiterals.ReadLiteral | src/json/cJSON.c:155-212 | so do the two loops over the buffer |
| JsonBuffers.StringRoomIsExact | src/json/cJSON.c:215-225 | the measuring pass over a string counts exactly the characters the writing pass writes |
| JsonBuffers.PrintStringPtr | src/json/cJSON.c:215-248 | the two passes of the string printer write the escaped string and stay inside the allocation |
| JsonBuffers.ComposeArray | src/json/cJSON.c:388-403 | composing an array stays inside the allocation |
| JsonBuffers.ComposeObject | src/json/cJSON.c:486-507 | composing an object stays inside the allocation |
| JsonBuffers.JoinArrayIsPrintItems | src/json/cJSON.c:388-403 | joining the entries' texts is printing the items |
| JsonBuffers.JoinObjectIsPrintMembers | src/json/cJSON.c:486-507 | joining the names' and entries' texts is printing the members |
| JsonBuffers.PrintValue | src/json/cJSON.c:302-317 | the recursive printer over buffers returns the value-level text |
| JsonBuffers.PrintArray | src/json/cJSON.c:348-403 | counting, collecting and composing an array give its text |
| JsonBuffers.PrintObject | src/json/cJSON.c:442-507 | counting, collecting and composing an object give its text |
| JsonBuffers.NumberFits | src/json/cJSON.c:118-138 | every C int fits the 21 characters allocated for it |
| JsonBuffers.PrintFitsItsMeasure | src/json/cJSON.c:215-507 | main result: for every tree, depth and format, text and terminator fit what the first pass allocates |
| JsonTree.Item.GetArraySize | src/json/cJSON.c:510-510 | the walk counts the children |
| JsonTree.Item.GetArrayItem | src/json/cJSON.c:511-511 | the walk reaches the child of that index, or null; a negative index reaches the first |
| JsonTree.Item.GetObjectItem | src/json/cJSON.c:512-512 | the walk reaches the first child whose name matches without regard to case |
| JsonTree.Item.AddItemToArray | src/json/cJSON.c:520-520 | the sequence of children grows by the item at its end; next, prev and child stay mutually inverse; every other subtree is unchanged |
| JsonTree.Item.AddItemToObject | src/json/cJSON.c:521-521 | the same, with the item renamed |
| JsonTree.Item.DetachItemFromArray | src/json/cJSON.c:525-526 | exactly the indexed child leaves, with its subtree and without links; out of range nothing changes |
| JsonTree.Item.DetachItemFromObject | src/json/cJSON.c:528-528 | exactly the first child of that name leaves |
| JsonTree.Item.ReplaceItemInArray | src/json/cJSON.c:532-534 | exactly the indexed child is exchanged for the new item |
| JsonTree.Item.ReplaceItemInObject | src/json/cJSON.c:535-535 | exactly the first child of that name is exchanged, and the new item takes the name |
| JsonTree.Item.Duplicate | src/json/cJSON.c:554-579 | a recursive copy is an equal tree on wholly new items, a shallow one has no children; the original is unchanged |
| JsonTree.Named | src/json/cJSON.c:512-512 | the first match, with no match before it |
| JsonTree.SameUpToCase | src/json/cJSON.c:39-44 | two characters match exactly when they are equal or the same letter in two cases |
| JsonTree.ReplacedIsFound | src/json/cJSON.c:535-535 | after a replacement by name, a lookup by that name finds the new item |
| JsonTree.AddedIsFoundUnlessShadowed | src/json/cJSON.c:521-521 | an added item is found by its name if and only if no earlier child carries it |
| JsonTree.DetachedIsGoneUnlessRepeated | src/json/cJSON.c:528-528 | after a detach by name nothing is left under it if and only if no later child carries it |
| JsonParser.ParseValueInto | src/json/cJSON.c:287-298 | the item filled on the heap is the value-level parser's tree, and the text left is its text |
| JsonParser.ParseArrayInto | src/json/cJSON.c:320-345 | so for arrays, child list included |
| JsonParser.ParseObjectInto | src/json/cJSON.c:406-439 | so for objects, names included |
| JsonParser.ReadNumber | src/json/cJSON.c:96-116 | the digit loop reads the value-level number |
| JsonParser.ParseText | src/json/cJSON.c:264-280 | fails exactly when the value-level parser fails, otherwise returns its tree on new items |
| JsonParser.NodesTellTreesApart | src/json/cJSON.c:287-439 | different trees never look alike as items |
| JsonParser.ParsePrinted | src/json/cJSON.c:264-284 | parsing a printout onto the heap gives the items of the printed tree and of no other |
| JsonParser.ItemTypes | src/json/cJSON.c:287-298 | the type number of each kind of item |
| Bytes.WordBytes | src/md5/md5.c:90-102 | four bytes that join to the word again |
| Bytes.BytesOfWord | src/md5/md5.c:103-115 | joining four bytes and splitting again returns them |
| Md5Spec.ShlIsCircular | src/md5/md5.h:18-18 | the rotation macro is a circular shift: what leaves a double-width word at the top comes back at the bottom |
| Md5Spec.Padded | src/md5/md5.c:79-89 | the padded message is a whole number of blocks |
| Md5Block.FFIsStep | src/md5/md5.h:19-24 | a call of the first macro is the table's step, for every index of its round |
| Md5Block.GGIsStep | src/md5/md5.h:25-30 | the same for the second round |
| Md5Block.HHIsStep | src/md5/md5.h:31-36 | the same for the third |
| Md5Block.IIIsStep | src/md5/md5.h:37-42 | the same for the fourth |
| Md5Block.Round1 | src/md5/md5.c:124-139 | the sixteen unrolled calls of round 1 are sixteen table-driven steps |
| Md5Block.Round2 | src/md5/md5.c:142-157 | the same for round 2 |
| Md5Block.Round3 | src/md5/md5.c:160-175 | the same for round 3 |
| Md5Block.Round4 | src/md5/md5.c:178-193 | the same for round 4 |
| Md5Block.Decode | src/md5/md5.c:103-115 | the loop reads the sixteen words of a block |
| Md5Block.Encode | src/md5/md5.c:90-102 | the loop writes the bytes of all words |
| Md5Block.Transform | src/md5/md5.c:116-198 | the unrolled transformation is the table-driven compression of RFC 1321, section 3.4 |
| Md5.CountMore | src/md5/md5.c:58-63 | carry and shifted parts keep the two words equal to the number of bits modulo 2^64 |
| Md5.GuardIsExactIffChunkFits | src/md5/md5.c:68-70 | the 32-bit loop guard agrees with the unbounded one at every block position if and only if the last position plus 64 stays below 2^32 |
| Md5.LoopEndsIffChunkFits | src/md5/md5.c:68-70 | the loop, its variable kept in 32 bits, ends at all if and only if the chunk fits |
| Md5.LongestChunkNeverEnds | src/md5/md5.c:68-70 | a concrete chunk of 2^32 - 1 bytes: after position 0xFFFFFFC0 comes 0, and the guard never fails |
| Md5.Context.Update | src/md5/md5.c:55-78 | the counter, the digested blocks and the buffered tail again describe the whole message, longer by the chunk |
| Md5.Context.Blocks | src/md5/md5.c:67-71 | the block loop digests exactly the whole blocks of the chunk |
| Md5.Context.Final | src/md5/md5.c:79-89 | the digest is that of RFC 1321 for everything taken |
| Md5.DigestChunks | src/md5/md5.c:46-89 | main result: for every message and every split into chunks, the digest of the whole message |
| Md5.LengthIsCounted | src/md5/md5.c:79-89 | the encoded counter is the encoded bit length |
| Md5Samples.StartsAsInBytes | src/md5/md5.c:46-54 | the four starting words, as the bytes section 3.3 of RFC 1321 gives |
| Md5Samples.LengthIsLowByteFirst | src/md5/md5.c:79-98 | the length field of a message too long for it, byte by byte: in bits, low byte first, only the low-order 64 bits |
| Md5Samples.FirstSteps | src/md5/md5.c:115-198 | all 64 steps on a block whose words all differ, with the words after every step |
| Md5Samples.DigestOfLettersAndDigits | src/md5/md5.c:46-198 | main result: the digest appendix A.5 of RFC 1321 gives for the 62 letters and digits, two blocks, from the definition the streaming digest is proved against |
| MichaelSpec.BlockUndone | driver/wireless/common/cmm_tkip.c:265-281 | the block function has an inverse on both sides |
| MichaelSpec.RunUndone | driver/wireless/common/cmm_tkip.c:265-281 | so has the digestion of any message |
| MichaelSpec.MicIsBijectiveInKey | driver/wireless/common/cmm_tkip.c:226-352 | main result: for a fixed message, a key gives a code if and only if it is the one key computed back from that code |
| MichaelSamples.EmptyMessage | driver/wireless/common/cmm_tkip.c:226-374 | the published code of no bytes under the key of zeros |
| MichaelSamples.NamedMessage | driver/wireless/common/cmm_tkip.c:226-374 | the published code of the seven letters of "Michael": two whole words and a partial one |
| Michael.GetUInt32 | driver/wireless/common/cmm_tkip.c:161-173 | the loop joins four bytes, low byte first |
| Michael.PutUInt32 | driver/wireless/common/cmm_tkip.c:194-205 | the loop writes the four bytes of a word and nothing else |
| Michael.KeyInfo.SetMICKey | driver/wireless/common/cmm_tkip.c:226-238 | key words and message state are set from the eight bytes |
| Michael.KeyInfo.Process | driver/wireless/common/cmm_tkip.c:266-281 | the assignments of the block step are the block function of the standard on the word taken in |
| Michael.KeyInfo.AppendByte | driver/wireless/common/cmm_tkip.c:259-282 | the state again describes the message, longer by the byte: whole words digested, the rest packed |
| Michael.KeyInfo.Append | driver/wireless/common/cmm_tkip.c:304-315 | the same for a span of bytes |
| Michael.KeyInfo.GetMIC | driver/wireless/common/cmm_tkip.c:335-352 | the code is that of the padded message |
| Michael.MicOfChunks | driver/wireless/common/cmm_tkip.c:226-352 | for every message and every split, the code of the whole message |
| Michael.InitMICEngine | driver/wireless/common/cmm_tkip.c:376-394 | addresses, priority and three zeros are taken in first |
| Michael.CompareMICValue | driver/wireless/common/cmm_tkip.c:420-460 | true if and only if the trailing eight bytes are the code, which holds for exactly one key |
| Michael.CalculateMICValue | driver/wireless/common/cmm_tkip.c:484-542 | the code over header, encapsulation and payload, with or without a VLAN tag |
| Michael.CarriedOfFrame | driver/wireless/common/cmm_tkip.c:484-548 | of an Ethernet frame the encapsulation bytes, the type and the payload are coded and a VLAN tag is not, whether the frame has one or not |
| Michael.SentIsAccepted | driver/wireless/common/cmm_tkip.c:420-542 | what the sender computes the receiver accepts under the same key and under no other |
| TkipMix.LowSbox | driver/wireless/common/cmm_tkip.c:551-564 | the two byte tables joined are the substitution of the standard on the low half of the word |
| TkipMix.LowRotr | driver/wireless/common/cmm_tkip.c:566-580 | the rotation of an unreduced word is the 16-bit rotation of its low half |
| TkipMix.LowAdd | driver/wireless/common/cmm_tkip.c:637-649 | a sum reduced late or early has the same low half |
| TkipMix.LowStir | driver/wireless/common/cmm_tkip.c:620-642 | a substitution step, reduced or not, is the 16-bit step on low halves |
| TkipMix.MixTurn | driver/wireless/common/cmm_tkip.c:617-626 | one turn of the phase 1 loop is the turn of the standard, and its words stay 16 bits wide |
| TkipMix.Substitute | driver/wireless/common/cmm_tkip.c:628-642 | the unreduced substitution half of phase 2 has the low halves of the standard's |
| TkipMix.Rotate | driver/wireless/common/cmm_tkip.c:644-649 | so has the rotation half |
| TkipMix.PutSeed | driver/wireless/common/cmm_tkip.c:654-680 | the sixteen bytes written are those of the 16-bit words |
| TkipMix.MixKey | driver/wireless/common/cmm_tkip.c:582-680 | main result: for every key, address and counter the bytes are those of section 8.3.2.5 of IEEE 802.11i-2004 |
| TkipSbox.LawHolds | driver/wireless/common/cmm_tkip.c:35-105 | every entry of the two tables is twice and three times one byte in GF(2^8), and that byte is the affine image of the inverse of the index |
| TkipSbox.TablesAreTheSbox | driver/wireless/common/cmm_tkip.c:35-105 | main result: so the substitution is that of section 5.1.1 of FIPS 197, for every byte |
| TkipSamples.Phase1OfSample | driver/wireless/common/cmm_tkip.c:602-626 | the published phase 1 key for one key, address and counter, all turns with their intermediate words |
| TkipSamples.SeedOfSample | driver/wireless/common/cmm_tkip.c:582-680 | the published seed for it |
| MacSpec.FillKeeps | driver/wireless/common/cmm_data.c:1704-1879 | an insertion keeps chains and flat table in agreement and the count right |
| MacSpec.ClearKeeps | driver/wireless/common/cmm_data.c:1901-1979 | so does a deletion |
| MacSpec.RunIsSound | driver/wireless/common/cmm_data.c:1678-1993 | after any run of insertions and deletions every live entry is once in the chain of its address, chains hold nothing else, and the size is the number of live entries |
| MacSpec.LookupFindsIffPresent | driver/wireless/common/cmm_data.c:1655-1676 | the lookup finds an entry if and only if some live entry has the address |
| MacSpec.CarefulRunLooksUpAsScan | driver/wireless/common/cmm_data.c:1655-1993 | main result: after any run that inserts only absent addresses, every lookup answers as the scan |
| MacSpec.RepeatedAddressIsFoundHigher | driver/wireless/common/cmm_data.c:1678-1993 | a concrete run with a repeated address where the two differ |
| MacSpec.HashIsParity | driver/wireless/include/mlme.h:142-143 | the hash of an address is the sum of all its bytes without carry |
| MacExact.InsertTakesLowestVacant | driver/wireless/common/cmm_data.c:1678-1879 | an insertion is refused exactly when no usable entry is vacant; otherwise the lowest takes the address and no other entry changes |
| MacExact.InsertChangesOneLookup | driver/wireless/common/cmm_data.c:1655-1879 | the new entry is found unless an older one with the address is, and no other lookup changes |
| MacExact.DeleteVacatesOne | driver/wireless/common/cmm_data.c:1887-1993 | a deletion vacates the entry named if that has the address, and otherwise changes nothing |
| MacExact.DeleteChangesOneLookup | driver/wireless/common/cmm_data.c:1655-1993 | every lookup that did not answer with the entry deleted answers as before |
| MacAgreement.InsertKeepsAgreementIff | driver/wireless/common/cmm_data.c:1678-1879 | while every lookup answers as a scan, an insertion keeps that so if and only if the vacant entry it takes lies above the one that has the address, if one has |
| MacAgreement.DeleteKeepsAgreementIff | driver/wireless/common/cmm_data.c:1887-1993 | a deletion keeps it so if and only if the entry is not the one found, or the next with the address in its chain is the next one up the table |
| MacAgreement.StepKeepsAgreementIffSafe | driver/wireless/common/cmm_data.c:1678-1993 | both, and the refused calls, as one condition on the table before the step |
| MacAgreement.RunAgreesIffSafe | driver/wireless/common/cmm_data.c:1655-1993 | main result: over any run from the empty table lookups answer as scans at every moment if and only if every step meets its condition |
| MacAgreement.InsertKeepsOrderIff | driver/wireless/common/cmm_data.c:1678-1879 | an insertion keeps the entries of an address in table order in their chain if and only if no entry with it lies above the place taken |
| MacAgreement.DeleteKeepsOrder | driver/wireless/common/cmm_data.c:1887-1993 | a deletion always does |
| MacAgreement.AgreesAsEntriesGoIffOrdered | driver/wireless/common/cmm_data.c:1655-1993 | lookups go on answering as scans through every sequence of deletions if and only if the chains are in table order |
| MacTable.MacTab.Lookup | driver/wireless/common/cmm_data.c:1655-1676 | the walk along the links is the value-level lookup |
| MacTable.MacTab.FindVacant | driver/wireless/common/cmm_data.c:1705-1710 | the scan for the first vacancy |
| MacTable.MacTab.Append | driver/wireless/common/cmm_data.c:1860-1875 | the entry ends up last in its chain; every other chain is untouched |
| MacTable.MacTab.InsertEntry | driver/wireless/common/cmm_data.c:1678-1879 | table and answer are those of the value-level insertion |
| MacTable.MacTab.Unchain | driver/wireless/common/cmm_data.c:1926-1955 | the entry leaves its chain and no other link changes its meaning |
| MacTable.MacTab.DeleteEntry | driver/wireless/common/cmm_data.c:1887-1993 | table and answer are those of the value-level deletion |
| MacTable.MacTab.Reset | driver/wireless/common/cmm_data.c:2003-2037 | no entry but the first is left live, and the first is as it was |
| TxQueue.Queue.RemoveHead | driver/wireless/include/rtmp.h:305-318 | the head leaves and the rest keeps its order |
| TxQueue.Queue.InsertHead | driver/wireless/include/rtmp.h:320-327 | an entry put back stands before all others |
| TxQueue.Queue.InsertTail | driver/wireless/include/rtmp.h:329-338 | an entry added stands behind all others |
| TxQueue.Grows | driver/wireless/common/cmm_data.c:748-783 | a packet the test admits keeps the batch within its bounds |
| TxQueue.GrownIsWellFormed | driver/wireless/common/cmm_data.c:933-957 | a finished batch has two packets for Ralink aggregation, stays within the size limit for A-MSDU, and holds a single packet otherwise |
| TxQueue.Gather | driver/wireless/common/cmm_data.c:933-954 | the inner loop moves from the queue to the batch, in order, exactly the packets that the value-level extension takes |
| TxQueue.TakeBatch | driver/wireless/common/cmm_data.c:886-968 | one turn sends a well-formed prefix, of the length and kind the value-level turn gives, or, queue-back included, leaves the queue as it was |
| TxQueue.DequeueOne | driver/wireless/common/cmm_data.c:846-975 | the batches sent from a queue, joined, are exactly what left its head, and they are the batches of the value-level service |
| TxQueue.DeQueuePacket | driver/wireless/common/cmm_data.c:808-994 | main result: so for every queue served, whatever the driver's state answers along the way, in the order of the queues and up to one at which the driver halts |
| TxLaws.JoinsIff | driver/wireless/common/cmm_data.c:748-783 | a packet joins a batch exactly when, in infrastructure mode, the batch with it still has the shape of its kind |
| TxLaws.ExtendIsMaximal | driver/wireless/common/cmm_data.c:933-954 | a batch ends only where the queue does, or at a packet for which there is no room, no infrastructure mode, or no place in a well-formed batch; for every packet before it there were |
| TxLaws.TurnIsMaximal | driver/wireless/common/cmm_data.c:900-958 | there is no batch only for want of room or for a Ralink frame held back; a frame that does not aggregate goes alone; any other takes in all it can |
| TxLaws.SentIsPrefix | driver/wireless/common/cmm_data.c:852-975 | what is sent is a prefix of the queue |
| TxLaws.StopsOnlyWhen | driver/wireless/common/cmm_data.c:852-975 | main result: packets stay in a queue only when the driver halts, the count has reached the limit, there is no room, or a Ralink frame is held back |
| TxLaws.EverythingGoes | driver/wireless/common/cmm_data.c:852-975 | with room and nothing held back, a queue no longer than the limit is emptied |
| TxLaws.LimitKept | driver/wireless/common/cmm_data.c:865-866 | every batch begins under the limit, as long as no batch can carry the count past its byte |
| TxLaws.PairsPassTheLimit | driver/wireless/common/cmm_data.c:964-964 | that is needed: under a limit of 255 pairs carry the byte from 254 to 0, and a queue of pairs of any length is sent whole |
| Amsdu.SplitUndoesBuild | driver/wireless/common/cmm_data.c:1501-1614 | splitting an aggregate announces, in order, exactly the subframes up to the first that stops the loop |
| Amsdu.AllReachedIff | driver/wireless/common/cmm_data.c:1522-1607 | nothing stops it early if and only if the payloads and padded sizes are in range |
| Amsdu.SplitIsCompleteIff | driver/wireless/common/cmm_data.c:1501-1614 | main result: splitting undoes building if and only if the subframes fit, last one padded or not |
| Amsdu.SmallFirstLosesSecond | driver/wireless/common/cmm_data.c:1588-1596 | a concrete pair: a first subframe of padded size 28 loses the second |
| Amsdu.ConvertedIsEthernetIff | driver/wireless/include/rtmp.h:540-571 | what is announced starts with the Ethernet header of its subframe if and only if an LLC/SNAP header comes off, or the payload starts like that itself |
| Amsdu.AnnouncedAreEthernetIff | driver/wireless/common/cmm_data.c:1501-1614 | so for every aggregate: all that is announced are Ethernet frames if and only if this holds of each subframe reached |
| Amsdu.BareIsNotEthernet | driver/wireless/common/cmm_data.c:1566-1585 | a concrete payload announced without its header |
| Amsdu.ReadsInsideIff | driver/wireless/common/cmm_data.c:1522-1607 | for arbitrary bytes: every read is inside the frame if and only if the place where the loop stops does not hold a payload too short for an LLC/SNAP header with too few bytes behind it, by its sizes and the bytes compared |
| Amsdu.StubReadsInsideIff | driver/wireless/include/rtmp.h:540-571 | that condition is when the reads for such a payload end inside |
| Amsdu.EmptyEapolIsReadPast | driver/wireless/common/cmm_data.c:1544-1561 | a concrete frame on which the size wraps and the read ends 2^16 bytes behind the payload |
| Amsdu.LastByteIsReadPast | driver/wireless/include/rtmp.h:540-571 | a concrete frame that is read past its end |
| Amsdu.RoomyIsConverted | driver/wireless/include/rtmp.h:540-571 | what is announced of a payload with room for that header is the conversion of its subframe |
| Amsdu.Announce | driver/wireless/include/rtmp.h:540-571 | the converted header is written in place, the clone has the bytes announced, and what follows a payload with room is untouched |
| Amsdu.Deaggregate | driver/wireless/common/cmm_data.c:1501-1614 | for every frame whose reads stay inside, stubs of payloads included, the loop ends and announces what the value-level split announces; the count answered is one more exactly when it stops at a subframe cut off or too long |
| AmsduHeaders.LengthIsHighByteFirst | driver/wireless/common/cmm_data.c:1522-1530 | the length of a subframe stands high byte first |
| AmsduHeaders.Rfc1042BecomesEthernet | driver/wireless/include/rtmp.h:540-571 | a payload behind an RFC 1042 header is announced as an Ethernet frame of its type, and bare for IPX and AppleTalk |
| AmsduHeaders.BridgeTunnelBecomesEthernet | driver/wireless/include/rtmp.h:540-571 | one behind a bridge tunnel header always is |
| AmsduHeaders.OthersStayBare | driver/wireless/include/rtmp.h:540-571 | every other payload is announced as it is |
| Rssi.StepStaysBetween | driver/wireless/common/cmm_data.c:2290-2307 | one sample in range keeps the average in range, whatever remainder is carried |
| Rssi.StepFits | driver/wireless/common/cmm_data.c:2290-2307 | nothing is cut off by the 8- and 16-bit fields |
| Rssi.StepWeighsOneEighth | driver/wireless/common/cmm_data.c:2302-2305 | the new eightfold average is seven eighths of the old one and the sample, with what the shift drops kept in |
| Rssi.RestartsIff | driver/wireless/common/cmm_data.c:2285-2288 | the filter looks unsampled again exactly when a sample of 0 comes on an average of 0 or -1 with nothing carried |
| Rssi.RunTracksExact | driver/wireless/common/cmm_data.c:2290-2307 | main result: until then, over runs of any length, the average is never below the exact exponential average with weight one eighth and at most seven eighths above it |
| Rssi.RunStaysBetween | driver/wireless/common/cmm_data.c:2283-2307 | so over runs of any length from the start |
| Rssi.StepApproaches | driver/wireless/common/cmm_data.c:2290-2307 | under a constant sample the average moves towards it, never past it, and stays once there |
| Rssi.ConstantSettles | driver/wireless/common/cmm_data.c:2290-2307 | after as many equal samples as the eightfold average is away, the average equals the sample |
| Rssi.LateChainStartsAtSampleIff | driver/wireless/common/cmm_data.c:2283-2341 | a chain takes its first sample over if and only if chain 0 looks unsampled then, or the sample is 0 or -1 |
| Rssi.LateChainsStart | driver/wireless/common/cmm_data.c:2283-2377 | so for chains 1 and 2 at every frame |
| Rssi.RadioStaysBetween | driver/wireless/common/cmm_data.c:2272-2377 | over every run of frames, whichever chains each is heard on, all three averages stay within bounds on the samples and zero |
| Rssi.SilentFirstChain | driver/wireless/common/cmm_data.c:2283-2377 | while chain 0 is never heard the other chains hold their last sample |
| Rssi.RssiSample.Update | driver/wireless/common/cmm_data.c:2272-2377 | the fields of all three chains, and of both signal-to-noise filters, move as the filter step says |

## Left out

- Locks, interrupt levels, timers as objects, operating system packets, register writes and messages to the peer: steps are atomic, timers are calls that may come at any time.
- Clock comparisons of the reordering code are given as booleans; the time stamp of the last indication is not kept.
- A TID of 8 or more in a received frame, which the code uses as an index past its arrays: callers pass a TID below 8.
- BaTable.Table.IndicateAmpduPacket: the conversion of the announced packet and the three receive paths behind it are events in the log only.
- SessionSpec.OriFreeKeeps: releasing the entry and clearing the station's slot are one step in the specification; the station index stands for the association identifier.
- A memory failure of the management element inside tear-down is a parameter of the step, and nothing more is modelled of the notice sent to the peer.
- JsonSpec.ParseValue: fractions, exponents, numbers that are not C ints, malformed `\u` escapes and a backslash right before the end of the text are answered with a third outcome, about which nothing is claimed.
- JsonMinify.MinifyInPlace: texts on which the scan steps past the NUL; what it then finds there is not modelled.
- cJSON allocation failure, allocation hooks, the error pointer, and items that are references to other items; floating-point values; characters stand for unsigned bytes.
- JsonBuffers.PrintValue: works on a tree as a value, not on linked items.
- JsonParser.ParseArrayInto: a new child is linked into its parent after it is parsed, the code links it before.
- JsonTree.Item.AddItemToArray: the item edited is taken as the root of what is known; an enclosing tree is not described again after the edit.
- JsonTree.Item.ReplaceItemInArray: the replaced item is dropped, its release to the allocator is not modelled.
- Md5.Context.Update: the counter words are numbers below 2^32 with shifts as multiplication and division; the input is a sequence. Chunks that do not fit the 32-bit loop variable are excluded, because the loop does not end for them.
- `md5encode` prints the digest in hexadecimal; the copy of the digest under `src/user_manage` differs in one name only.
- Michael.CompareMICValue: the reaction to a wrong code, and reassembly of fragments. RC4 and CRC are not part of this model.
- TkipMix.MixKey: the counter halves are 32-bit words.
- MacTable.MacTab.InsertEntry: authentication, rate, key and power-save fields, timers and chip tables; the address hash, chains, type, identifier and size are kept.
- MacTable.MacTab.DeleteEntry: the tear-down of Block Ack sessions it starts is modelled in the session tables.
- TxQueue.DeQueuePacket: packets queued by other contexts between two batches, and what the hardware does with a batch; the transmit counter is a byte that wraps, as in the code.
- Amsdu.Deaggregate: frames for which a read leaves the frame, allocation failures, and receive modes other than station; of what goes to the EAPOL machine only whether it goes.
- Rssi.RssiSample.Update: the conversion of the raw readings is a parameter.
- Fragment reassembly, the wireless distribution client, action frames, chip files, the USB ring, and everything outside the driver, `src/json` and `src/md5`: sockets, SQL, UART, processes and the user interface.
