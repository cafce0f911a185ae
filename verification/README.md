# Models and proofs for a camera control engine

The program reads sensor and image-processor statistics, runs tuning algorithms in groups, and can drive
several cameras together and one picture through two overlapping image signal processors (ISPs). This
project models the parts of it whose correctness depends on order, interleaving or matching decisions in
different files, and proves what those parts are for. `dafny verify dfyconfig.toml` checks all of it.

* **Message collector** (`Collector`, `CollectorRuns`, `CollectorOverflow`, `SofSource`, `Dispatcher`).
  Messages of several types are filed per frame; a group fires when all its types are there. The real map is
  pruned twice; the reference is a function of the message history with no state to prune. Their logs are
  proved equal but for the trimmed ids, with the exact condition on the messages under which nothing is
  trimmed.
* **Camera group**. Reference-counted records per frame (`RecordStore`, `ResultRefs`), a rendezvous of all
  cameras (`SofSync`, `SofGroup`) and a life cycle (`Lifecycle`); and group results, which are completed by one
  thread, may be forced by another, and are queued for a worker: the steps (`CamGroupResults`), what they keep
  (`CamGroupInvariant`, `CamGroupContents`, `CamGroupQueue`, `CamGroupRefs`), whole runs (`CamGroupRuns`), the
  order of the queue (`CamGroupOrder`, `CamGroupApart`, `CamGroupCertain`, `CamGroupPassing`), witnesses
  (`CamGroupExamples`) and the methods (`CamGroupCalls`, `CamGroupManager`). One step is one section that holds
  a mutex, one queue operation, one look at the state of the group, or one unlocked change, and the steps of
  all threads interleave freely; addresses are explicit, so that a deleted record can be told from a live one.
  The methods that work in place are proved to be runs of these steps when nothing interrupts them.
* **Dual ISP** (`AecWindows`, `SubWindows`, `GridMerge`, `HistMerge`). One file cuts windows, weights and
  sub-windows; another re-derives the same decisions and merges statistics. Proved: both decide alike,
  halves lie inside their ISPs, nothing is lost or counted twice, averaging undoes splitting.
* **Core state** (`HandleChain`, `StatsBuffers`, `CalibHandshake`) and the **INI reader** (`IniText`,
  `IniSteps`, `IniBuffer`, `IniLookup`, `IniDocument`, `IniReader`), whose in-place splitter is proved
  against a grammar of the text, and whose search is proved to find what was written.

Each method that works in place is proved equal to a function of its inputs or of the old state; the
theorems about runs are then about that function. The invariants allow every interleaving of the steps.

## Where the code and its promises differ

* `msgReduction` can drop an id that would still have completed: `LateFrameIsLost`. That is the only
  difference, `LogIsReferenceWithoutTrimmed`, and it cannot happen exactly while at most twelve ids are open,
  `NothingTrimmedIff`.
* `start` clears nothing, and deliveries are not refused while the group is stopped. A record that became
  ready then is never queued, and its successor is queued without it: `EarlyFrameIsSkipped`, with the exact
  conditions in `ReadyMeansQueuedIff`, `ApartKeepsOrderIff` and `OrderIsCertainIff`.
* A completion takes the mutex several times, and two of them can overlap. The frame before may be ready and
  not yet pushed when the next one looks for it, and is then queued behind it: `OverlapSwapsFrames`, with the
  exact condition in `PredecessorIsAheadIff`.
* A frame may be completed by its own thread while the next one is about to force it. Then it is queued twice,
  the second time with its masks overwritten: `ClashQueuesTwice`, with the exact condition in `QueuedTwiceIff`.
  Neither happens while completions of neighbouring frames do not overlap: `ApartIsQueuedOnce`,
  `SessionIsInOrderIff`.
* The cleared-id mark refuses only smaller ids, so a straggler for the newest cleared frame makes its record
  again, and the frame can be queued twice: `FrameIsQueuedTwice`, `SharedIdIff`.
* `getGroupCamResult` and `getGroupCamSofsync` subtract 4 and 8 in 32 bits before clearing. For frames 3
  and 7 the difference is the clear-all bound, and records in use are deleted: `GetDeletesInUseIff`,
  `FrameThreeDeletesHeldRecords`, `FrameSevenDeletesHeldRecords`.
* The header's state table does not list BINDED to PREPARED; `prepare` accepts BINDED, and the model
  follows the code.
* A record that is forced ready may be queued although an older one is still waiting: `ForcedOvertakesIff`,
  `ForcedFrameOvertakes`.
* A grid with an even number of columns would not survive splitting and averaging; the sizes in use, 1, 5
  and 15, are odd.
* An INI line that begins with `=` stores a value without a key and shifts all later pairs:
  `FaithfulIffEveryEntryHasKey`.
* If an event announces id 2^32 - 1, the posting loop never sees an id above it, and goes on with id 0:
  `LargestWordRunsOn`, with the exact condition in `PostedIdsIncreaseIff`.
* `setGrpDeps` overwrites another group that already has the new mask: `ChangeLosesAGroupIff`,
  `SecondGroupIsLost`.

## Model

| member | source | states |
|---|---|---|
| `Collector.DropSmallestKeepsNewest` | aiq_core/RkAiqAnalyzeGroupManager.cpp:52-83 | trimming removes exactly the wanted number of ids, keeps the entries of the others unchanged, and every removed id is older than every kept one |
| `Collector.AnalyzerGroup.GetMsgDelayCnt` | aiq_core/RkAiqAnalyzeGroupManager.cpp:93-104 | the loop over all conditions returns the delay of the first one on the type, wherever it stands, and 0 when there is none |
| `FrameMessages.DelayIsOfFirstCond` | aiq_core/RkAiqAnalyzeGroupManager.cpp:93-104 | the delay that the reference uses is that of condition i for the first i on the type, and 0 without one |
| `Collector.AnalyzerGroup.MsgReduction` | aiq_core/RkAiqAnalyzeGroupManager.cpp:52-83 | in place: of more than 12 ids pending the loop leaves 6, each newer than every removed one, with their entries unchanged; otherwise nothing changes |
| `Collector.AnalyzerGroup.EraseOlder` | aiq_core/RkAiqAnalyzeGroupManager.cpp:127-134 | the erasing loop removes exactly the ids below the fired one, and keeps the entries of the others |
| `Collector.AnalyzerGroup.MsgHandle` | aiq_core/RkAiqAnalyzeGroupManager.cpp:106-147 | null and unwanted messages change nothing; otherwise the message is filed under frame plus delay in 32 bits, and either the group fires and keeps only newer ids, or it is trimmed; status and handler call are stated exactly |
| `Collector.MessageLands` | aiq_core/RkAiqAnalyzeGroupManager.cpp:106-147 | for every group, map and wanted message: it joins the messages of id frame plus the delay of the first condition on its type, modulo 2^32; the id fires with them if all types are there, and all up to it are gone; otherwise up to twelve ids stay and of more the six newest |
| `CollectorRuns.HandleKeepsPendingOk` | aiq_core/RkAiqAnalyzeGroupManager.cpp:106-147 | one message keeps the invariant of the pending map, in any order of arrival |
| `CollectorRuns.PendingInvariant` | aiq_core/RkAiqAnalyzeGroupManager.cpp:52-147 | over every run at most 12 ids are pending, and every entry holds messages of its own id only, with the union of their bits as flags, a proper subset of the required set |
| `CollectorRuns.RunAgrees` | aiq_core/RkAiqAnalyzeGroupManager.cpp:106-147 | over every ordered run, each id is pending with exactly the messages the reference has collected for it, or is finished, or was trimmed and can never be completed again |
| `CollectorRuns.FiresLikeReference` | aiq_core/RkAiqAnalyzeGroupManager.cpp:106-147 | on every message of an ordered run the pruned collector fires exactly when a reference that never discards fires and the id was not trimmed before; id and message list are equal |
| `CollectorRuns.FiresIncrease` | aiq_core/RkAiqAnalyzeGroupManager.cpp:127-141 | fires come in strictly increasing id order, so no id fires twice |
| `CollectorRuns.LogIsReferenceWithoutTrimmed` | aiq_core/RkAiqAnalyzeGroupManager.cpp:52-147 | main result: for every ordered run of any length the log of fires is the log of the unbounded reference without the trimmed ids; same ids, order and message lists |
| `CollectorRuns.OthersChangeNothing` | aiq_core/RkAiqAnalyzeGroupManager.cpp:111-113 | a group that is sent every message, as the single thread does, ends and fires as one that is sent only messages of its own types |
| `CollectorOverflow.NothingTrimmedIff` | aiq_core/RkAiqAnalyzeGroupManager.cpp:52-83 | for every ordered run: overflow never drops anything exactly if at no point more than twelve ids above the newest completed one have a message |
| `CollectorOverflow.PrunedIsUnbounded` | aiq_core/RkAiqAnalyzeGroupManager.cpp:52-147 | then the log is that of the reference |
| `CollectorOverflow.LogsOfFinishedRunsAreEqualIff` | aiq_core/RkAiqAnalyzeGroupManager.cpp:52-147 | if every id with a message completes in the end, the two logs are equal exactly under that condition on the messages |
| `CollectorOverflow.LateFrameIsLost` | aiq_core/RkAiqAnalyzeGroupManager.cpp:52-83 | a concrete ordered run: thirteen frames of one type, then frame 1 of the other; the reference fires frame 1, the collector does not |
| `CollectorRuns.HandleQueue` | aiq_core/RkAiqAnalyzeGroupManager.cpp:85-91 | the thread that takes its queue message by message produces that log and that pending map |
| `SofSource.SofAnalyzer.EventsAnalyze` | aiq_core/RkAiqCore.cpp:1858-1922 | the posting loop posts exactly what the event announces beyond the last id posted, until data or buffers run out, and remembers the last id posted |
| `SofSource.PostedIsAnnounced` | aiq_core/RkAiqCore.cpp:1868-1922 | in numbers, for every event: post k is the larger of last + 1 and the sequence, plus k, up to sequence + delay - 1 or until posting fails; nothing for sequence 0 or a wrapped end; and without end if the end is 2^32 - 1 |
| `SofSource.PostedIdsIncreaseIff` | aiq_core/RkAiqCore.cpp:1858-1922 | however events repeat, skip or fall behind, the ids posted over a whole run increase strictly, exactly if every event posts nothing, or comes before the largest word was posted and is not one whose loop runs on behind that word |
| `SofSource.LargestWordRunsOn` | aiq_core/RkAiqCore.cpp:1873-1922 | a concrete event that announces id 2^32 - 1 and posts that id and then 0 |
| `SofSource.IncreasingFramesAreOrderedIff` | aiq_core/RkAiqAnalyzeGroupManager.cpp:106-120 | strictly increasing frames of every required type, in any interleaving of the types, are the order the collector relies on, exactly if the 32-bit sums of frame and delay of one type wrap equally often |
| `SofSource.SofDrivenGroup` | aiq_core/RkAiqCore.cpp:1858-1922 | end to end: for a group fed by this source, under these exact conditions, the log is the reference log without the trimmed ids |
| `SofSource.WrappedSumsAreNotOrdered` | aiq_core/RkAiqAnalyzeGroupManager.cpp:111-112 | a concrete run in which the 32-bit sum of frame and delay wraps and the order is lost |
| `Dispatcher.GroupManager.ParseAlgoGroup` | aiq_core/RkAiqAnalyzeGroupManager.cpp:466-501 | the loop skips disabled algorithms, lists those that have a handle by group and for all groups, and makes one group per dependency mask, of the kind of the first description with that mask |
| `Dispatcher.GroupManager.SetGrpDeps` | aiq_core/RkAiqAnalyzeGroupManager.cpp:216-235 | the first group of the kind, in mask order, moves to the new key; an unknown kind is an error |
| `Dispatcher.GroupManager.HandleMessage` | aiq_core/RkAiqAnalyzeGroupManager.cpp:503-523 | a message reaches exactly the groups whose own dependency mask has its bit, or every group when one thread serves all |
| `Dispatcher.MaskHasItsDigits` | aiq_core/RkAiqAnalyzeGroupManager.cpp:503-523 | a mask has a message exactly if its binary digit at that position is set: for every set of positions and the sum of their powers of two |
| `Dispatcher.ParsedIsKeyed` | aiq_core/RkAiqAnalyzeGroupManager.cpp:466-501 | after parsing, the key of every group is the mask the group itself holds |
| `Dispatcher.ChangeKeepsKeys` | aiq_core/RkAiqAnalyzeGroupManager.cpp:216-235 | changing dependencies keeps key and mask equal |
| `Dispatcher.ChangeFailsIff` | aiq_core/RkAiqAnalyzeGroupManager.cpp:216-235 | a change fails, and then changes nothing, exactly if no group is of that kind |
| `Dispatcher.ChangeLosesAGroupIff` | aiq_core/RkAiqAnalyzeGroupManager.cpp:224-232 | the group that moves is that of the smallest mask of its kind, all others stay as they are, and one is lost exactly when the new mask already belonged to another group |
| `Dispatcher.SecondGroupIsLost` | aiq_core/RkAiqAnalyzeGroupManager.cpp:224-232 | two groups of which one is lost |
| `Dispatcher.AllIsListed` | aiq_core/RkAiqAnalyzeGroupManager.cpp:480-483 | an algorithm is listed for all groups exactly if a description is for it and it has a handle |
| `Dispatcher.ListedInOrder` | aiq_core/RkAiqAnalyzeGroupManager.cpp:466-501 | for every table of descriptions: the list of a group, and of all groups, is the enabled algorithms of that kind that have handles, in the order of the descriptions |
| `Dispatcher.KindIsServedIff` | aiq_core/RkAiqAnalyzeGroupManager.cpp:476-500 | a kind of group has an analyzer exactly when one of its descriptions is the first with its mask |
| `RecordStore.RecordTable.ClearLocked` | RkAiqCamGroupManager.cpp:176-212 | in place: the clear-all bound empties the table whatever the counts are; any other bound deletes exactly the records up to it that nobody refers to, and moves the mark |
| `RecordStore.RecordTable.ClearExpired` | RkAiqCamGroupManager.cpp:190-211 | the erasing loop over the ordered map, smallest id first |
| `RecordStore.RecordTable.GetRecord` | RkAiqCamGroupManager.cpp:136-173 | lookup, readiness query, overflow clear, refusal below the mark, and creation with one reference |
| `RecordStore.RecordTable.PutRecord` | RkAiqCamGroupManager.cpp:222-227 | one reference less, never below zero; null is ignored |
| `RecordStore.ClearKeepsExactlyTheRest` | RkAiqCamGroupManager.cpp:186-211 | a bounded clear keeps exactly the records that are in use or newer than the bound, unchanged |
| `RecordStore.GetAddsOneReference` | RkAiqCamGroupManager.cpp:136-173 | a lookup keeps the map and the records consistent and adds one reference to the record it returns, which is the one of that frame |
| `RecordStore.GetCreatesBlank` | RkAiqCamGroupManager.cpp:162-169 | a lookup invents no contents: new records are blank and at an address never used before |
| `RecordStore.NewFrameKeeps` | RkAiqCamGroupManager.cpp:151-155 | for any capacity and margin: which records a lookup for a new frame leaves, with the 32-bit difference and the clear-all bound written out |
| `RecordStore.NewFrameIsMadeIff` | RkAiqCamGroupManager.cpp:156-169 | a new frame gets a blank record with one reference at a fresh address, exactly if it is not below the mark that trimming leaves |
| `RecordStore.GetDeletesInUseIff` | RkAiqCamGroupManager.cpp:151-155 | a lookup deletes a record in use exactly when the table overflows, something is in use, and the frame id is the margin minus one, so that the 32-bit difference is the clear-all bound |
| `RecordStore.MarkFallsIff` | RkAiqCamGroupManager.cpp:300-309 | the exact condition under which a clear lowers the mark: only where the mark is the bound itself, as in the SOF table |
| `RecordStore.MarkAfterNewFrame` | RkAiqCamGroupManager.cpp:186-211 | the mark after a lookup: unchanged if nothing is deleted; otherwise the bound, or the largest id deleted so far, as the table has it |
| `ResultRefs.StepCountsIff` | RkAiqCamGroupManager.cpp:94-103 | from a state in which every count is the number of holders, unsent, queued and processed references, every step of every thread keeps that exactly when it is not a clear-all under a reference |
| `ResultRefs.EveryRunCounts` | RkAiqCamGroupManager.cpp:62-103 | over every interleaving of get, put, write, send, worker and clear steps without such a clear-all, the counts are right in every state |
| `ResultRefs.ReferredToIsInPlace` | RkAiqCamGroupManager.cpp:136-227 | a held, unsent, queued or processed record has not been deleted, is in the map under its own id, and its count is positive |
| `ResultRefs.HoldersAreNeverStuck` | RkAiqCamGroupManager.cpp:62-103 | with right counts every thread that refers to a record can go on |
| `ResultRefs.FrameBelowMarginDeletesHeldRecords` | RkAiqCamGroupManager.cpp:151-155 | for either table: one held record too many, then the frame below the margin, and held records are deleted |
| `CamGroupRefs.FrameThreeDeletesHeldRecords` | RkAiqCamGroupManager.cpp:151-155 | a reachable state of the result table in which the lookup of frame 3 deletes records that are held |
| `CamGroupRefs.ResultTableKeeps` | RkAiqCamGroupManager.cpp:136-173 | for the result table: a lookup for a new frame deletes nothing with at most 12 records; with more, exactly the unreferenced ones up to the frame less 4, for frames below 3 up to that plus 2^32, and for frame 3 all |
| `CamGroupRefs.ResultTableMakes` | RkAiqCamGroupManager.cpp:136-173 | for the result table: its mark is the largest id deleted so far, a blank record is made exactly if the frame is not below it, and a query for one that is not ready gets only such a record |
| `ResultRefs.StepKeepsMark` | RkAiqCamGroupManager.cpp:186-211 | in every step but a restart the cleared-id mark does not fall, and it is the largest id that bounded clears have deleted |
| `ResultRefs.MarkRises` | RkAiqCamGroupManager.cpp:186-211 | the same between any two states of a run without a restart in between |
| `ResultRefs.NothingOlderIsCreated` | RkAiqCamGroupManager.cpp:156-159 | in one session no record is created with a smaller id than one that a bounded clear deleted |
| `CamGroupQueue.StepKeeps` | RkAiqCamGroupManager.cpp:324-384 | every section of every completion, and every other step, also while the group is stopped, keeps the invariant: who may still push a record and who has, that contents stand for deliveries, and that a ready record is queued, on its way, or was given up because the group did not run |
| `CamGroupRuns.EveryRunKeeps` | RkAiqCamGroupManager.cpp:324-469 | the invariant holds in every state of every interleaving of these sections, over any number of starts and stops, and every completion holds the references it needs |
| `CamGroupRefs.StepCountsIff` | RkAiqCamGroupManager.cpp:324-384 | every section keeps the reference counts right exactly when it is not a clear-all while some thread refers to a record |
| `CamGroupRuns.EveryRunCounts` | RkAiqCamGroupManager.cpp:324-384 | so the counts are right in every state of every interleaving without such a clear |
| `CamGroupRefs.CompletionsAreNeverStuck` | RkAiqCamGroupManager.cpp:345-369 | with right counts, a completion can always take its next section: its own and its late record are live |
| `CamGroupRuns.QueuedAtMostTwice` | RkAiqCamGroupManager.cpp:324-369 | in a session a record is queued at most twice: once by the thread that completed it, and once by one that forced it |
| `CamGroupRuns.QueuedTwiceMeansClash` | RkAiqCamGroupManager.cpp:324-369 | over every interleaving, a record that is queued twice was completed while another thread had it as late record, looked up and not yet forced |
| `CamGroupRuns.QueuedTwiceIff` | RkAiqCamGroupManager.cpp:324-369 | in a session that starts and ends with no completion in progress, that is the exact condition for a record to be queued twice |
| `CamGroupExamples.ClashQueuesTwice` | RkAiqCamGroupManager.cpp:345-369 | a state that a first session reaches: the record of frame 5 is queued twice, around that of frame 6, and what its own thread pushed no longer holds what the camera delivered |
| `CamGroupRuns.SharedIdIff` | RkAiqCamGroupManager.cpp:151-169 | an entry has an earlier one with its id exactly when its record was queued before, or was made by a lookup for a frame that had been queued and deleted |
| `CamGroupRuns.MakesAgainIff` | RkAiqCamGroupManager.cpp:156-159 | such a lookup is one for a queued frame without a record that the mark, after trimming, does not refuse |
| `CamGroupRuns.QueuedIsComplete` | RkAiqCamGroupManager.cpp:324-369 | for a record that its own thread queued, every bound camera delivered every required message and result for that frame, statistics two frames earlier; unless two threads clashed on it, it also holds all of that |
| `CamGroupRuns.ReadyMeansQueuedIff` | RkAiqCamGroupManager.cpp:324-369 | throughout a session every ready record is queued or about to be pushed, exactly if every record that was ready when the group started was about to be pushed then |
| `CamGroupApart.EarlyIsMissed` | RkAiqCamGroupManager.cpp:366-369 | starting clears nothing: with no completion in progress, the records that are ready when the group starts are those whose push was given up because it did not run |
| `CamGroupOrder.QueuedIff` | RkAiqCamGroupManager.cpp:324-369 | a live record that no two threads clashed on is in one place: it waits, a thread is about to push it, it was given up, or it was queued; one that they clashed on is queued exactly if one of its two pushes is over |
| `CamGroupOrder.PredecessorIsAheadIff` | RkAiqCamGroupManager.cpp:345-369 | when a thread pushes the record it completed, the record of the frame before that its lookup found is ahead if it was not ready then; if it was, it is ahead exactly if its own push is over and was not given up, or two threads clashed on it |
| `CamGroupExamples.OverlapSwapsFrames` | RkAiqCamGroupManager.cpp:345-369 | a state that a session reaches from an empty table, without clash and without a forced record: frame 6 was queued before frame 5, because their completions overlapped |
| `CamGroupApart.ApartIsQueuedOnce` | RkAiqCamGroupManager.cpp:324-369 | if completions of neighbouring frames do not overlap, no record is queued twice |
| `CamGroupApart.ApartKeepsOrderIff` | RkAiqCamGroupManager.cpp:345-369 | if they do not overlap, the record of the frame before is ahead exactly if it was not ready when the group started |
| `CamGroupApart.SessionIsInOrderIff` | RkAiqCamGroupManager.cpp:345-369 | such a session keeps the order in every push exactly if it never queues the frame after one that was ready before the start, and always if no record was ready then |
| `CamGroupCertain.OrderIsSettledIff` | RkAiqCamGroupManager.cpp:345-369 | a completion whose lookup found the record of the frame before ready is certain to queue its own behind it, however the session goes on, exactly if that record is queued by now |
| `CamGroupPassing.EarlyRecordCanBePassed` | RkAiqCamGroupManager.cpp:324-469 | for every group and every run: if a record is ready when the group starts, and the record of the next frame waits or can be made, its cameras can deliver it, one message after the other, each a lookup, a mark, a completion check and a put, and it is queued without its predecessor |
| `CamGroupPassing.OrderIsCertainIff` | RkAiqCamGroupManager.cpp:324-469 | where the next frame of some ready record, if there is any, can be delivered, a session whose completions do not overlap keeps the order however it goes on, exactly if no record is ready when it starts |
| `CamGroupOrder.ForcedOvertakesIff` | RkAiqCamGroupManager.cpp:345-363 | when a late record is pushed, the record before it, if there is one, is ahead exactly if it is ready and its push is over; after a clash, exactly if one of its two pushes is over |
| `CamGroupExamples.EarlyFrameIsSkipped` | RkAiqCamGroupManager.cpp:768-811 | a run that can be had: a frame completes while the group is stopped, the group starts, and the order is not certain any more |
| `CamGroupExamples.ForcedFrameOvertakes` | RkAiqCamGroupManager.cpp:345-363 | a state that a first session reaches: frame 6 was forced and queued while frame 5 still waits |
| `CamGroupExamples.FrameIsQueuedTwice` | RkAiqCamGroupManager.cpp:156-159 | a state that a first session reaches: a straggler made the record of a queued frame again, and it was forced and queued a second time |
| `CamGroupRuns.ForcedReadsCompleteIff` | RkAiqCamGroupManager.cpp:347-357 | a forced record reads as complete exactly when the two required masks are equal, since each is stored where the other belongs |
| `CamGroupCalls.ForcesLate` | RkAiqCamGroupManager.cpp:349-364 | uninterrupted, five sections choose, force, count, push and put back the late record, with this whole new state |
| `CamGroupManager.CamGroupManager.StartThread` | RkAiqCamGroupManager.cpp:768-782 | in place: starting empties the queue and keeps the table |
| `CamGroupManager.CamGroupManager.StopThread` | RkAiqCamGroupManager.cpp:785-811 | in place: stopping halts a started group and deletes every record and the mark |
| `CamGroupManager.CamGroupManager.SetSingleCamStatusReady` | RkAiqCamGroupManager.cpp:324-384 | in place: an uninterrupted call is its ready section and, exactly if that completes the record, the sections of one whole completion |
| `CamGroupManager.CamGroupManager.ForcedResult` | RkAiqCamGroupManager.cpp:349-357 | the loop over the cameras stores the two masks the other way round for every bound camera, and leaves the others as they are |
| `CamGroupManager.CamGroupManager.SendLate` | RkAiqCamGroupManager.cpp:345-364 | in place: the sections that look up the record of the frame before, force and queue it if the group runs, and put it back |
| `CamGroupManager.CamGroupManager.SendOwn` | RkAiqCamGroupManager.cpp:366-369 | in place: the sections that count and push the completed record if the group runs |
| `CamGroupManager.CamGroupManager.SendFrame` | RkAiqCamGroupManager.cpp:95-103 | one more reference, and the record at the end of the queue |
| `CamGroupManager.CamGroupManager.ProcessCoreMsg` | RkAiqCamGroupManager.cpp:387-469 | a message that is not required does nothing; any other is a refused lookup, or a lookup, a mark, a ready section, the sections of its completion if there is one, and a put, in this order |
| `CamGroupManager.DeliveryIsMarked` | RkAiqCamGroupManager.cpp:457-463 | a delivery sets the one bit of the one camera and takes nothing away |
| `CamGroupManager.CamGroupManager.ReprocLoop` | RkAiqCamGroupManager.cpp:63-92 | one round of the worker takes the oldest record, relays it if it is ready and reprocessing succeeds, puts it back and clears up to its id: exactly the records up to that id that are not in use any more are gone, and for the largest id all |
| `SofSync.MarkIsFirst` | RkAiqCamGroupManager.cpp:593-599 | a call that is about to set its bit finds that its frame was never complete before: completion needs the bit of every camera, and each camera sets it once |
| `SofSync.StepKeeps` | RkAiqCamGroupManager.cpp:572-618 | every step of every call keeps the invariant |
| `SofSync.EveryRunKeeps` | RkAiqCamGroupManager.cpp:572-618 | the invariant holds in every state of every interleaving |
| `SofSync.HandedOutOnce` | RkAiqCamGroupManager.cpp:572-618 | a frame is handed out at most once, also when its record was cleared and made again |
| `SofSync.HandedOutIsOwn` | RkAiqCamGroupManager.cpp:601-606 | what is handed out holds, for exactly the bound cameras, the event each of them reported for that frame |
| `SofSync.StepCountsIff` | RkAiqCamGroupManager.cpp:230-314 | every step keeps the counts of the SOF records right exactly when it is not a clear-all under a reference |
| `SofSync.CallsAreCounted` | RkAiqCamGroupManager.cpp:230-314 | over every interleaving without such a clear-all the counts are right, and held references are those of the calls |
| `SofSync.CallFindsItsRecord` | RkAiqCamGroupManager.cpp:572-618 | each unfinished call finds its record in place under the frame it reported, and the count is the number of such calls |
| `SofSync.FrameSevenDeletesHeldRecords` | RkAiqCamGroupManager.cpp:245-251 | a reachable state of the SOF table in which the lookup of frame 7 deletes records that are held |
| `SofSync.SofTableKeeps` | RkAiqCamGroupManager.cpp:230-272 | for the SOF table: at most 16 records all stay; of more exactly the unreferenced ones up to the frame less 8 go, which is then the mark, and for frame 7 all |
| `SofSync.SofTableMakes` | RkAiqCamGroupManager.cpp:230-272 | for the SOF table: which lookup gets the record of its frame, which makes a blank one, and which is refused |
| `SofSync.MarkFallsFromNineToThree` | RkAiqCamGroupManager.cpp:300-309 | a concrete table whose mark goes to 9 and back to 3 |
| `SofGroup.SofTable.SofSync` | RkAiqCamGroupManager.cpp:572-618 | in place: an uninterrupted call is exactly the steps enter, store, mark and put, with handing out and clearing in between and after when its bit was the last, or a refused lookup; what it hands out and what it clears are also stated in terms of the records |
| `Lifecycle.CamGroup.BindCam` | RkAiqCamGroupManager.cpp:899-928 | the whole new state and the status, from every state |
| `Lifecycle.CamGroup.UnbindCam` | RkAiqCamGroupManager.cpp:931-958 | the whole new state and the status, from every state |
| `Lifecycle.CamGroup.InitAlgos` | RkAiqCamGroupManager.cpp:731-743 | only from BINDED, to INITED |
| `Lifecycle.CamGroup.PrepareParams` | RkAiqCamGroupManager.cpp:814-896 | only from INITED or BINDED, to PREPARED when the initial parameters could be processed |
| `Lifecycle.CamGroup.StartThread` | RkAiqCamGroupManager.cpp:768-782 | only from PREPARED, to STARTED |
| `Lifecycle.CamGroup.StopThread` | RkAiqCamGroupManager.cpp:785-811 | an error in INVALID; STARTED becomes PREPARED; any other state stays |
| `Lifecycle.CamGroup.DeInitAlgos` | RkAiqCamGroupManager.cpp:746-765 | only from UNBINDED, to INVALID |
| `Lifecycle.EveryCallKeepsConsistent` | RkAiqCamGroupManager.cpp:899-958 | from a consistent state every sequence of calls leads to a consistent one |
| `Lifecycle.ReachableIsConsistent` | RkAiqCamGroupManager.cpp:730-958 | after any calls on a new group the bound cameras are empty exactly in INVALID and UNBINDED, and the 8-bit mask has exactly the bits of the bound ids |
| `Lifecycle.StartedIsFrozen` | RkAiqCamGroupManager.cpp:899-958 | while STARTED no call but stop changes anything |
| `Lifecycle.CallFailsIff` | RkAiqCamGroupManager.cpp:730-958 | every call fails exactly in the states listed, and then changes nothing |
| `Lifecycle.PhaseAfter` | RkAiqCamGroupManager.cpp:730-958 | the state after every call that does not fail |
| `Lifecycle.CamerasAfter` | RkAiqCamGroupManager.cpp:899-958 | only binding and unbinding change the cameras, and a bound camera keeps its context |
| `Lifecycle.TransitionsAreTheTableAndOneMore` | RkAiqCamGroupManager.h:240-255 | the transitions that can happen are those of the documented table and BINDED to PREPARED, both directions |
| `Lifecycle.PrepareHasCameras` | RkAiqCamGroupManager.cpp:824-827 | the bypass for a group without cameras is never taken |
| `AecWindows.JudgeWinLocation` | aiq_core/RkAiqResourceTranslatorV3x.cpp:85-125 | the merging side decides as Location does, with the 16-bit truncations |
| `AecWindows.LocationIsJudged` | aiq_core/RkAiqResourceTranslatorV3x.cpp:85-125 | the decision in numbers, for every window in the picture: it ends in the left ISP, begins in the right one, or lies over the overlap; otherwise the side is kept if cutting takes away less than spreading adds |
| `AecWindows.SplitAecCalcBlockSize` | hwi/IspParamsSplitter.cpp:143-177 | the loop ends with the largest block size not above the start that fits the right ISP, and sets sizes and the even offset from it |
| `AecWindows.HalfBlocksAreLargest` | hwi/IspParamsSplitter.cpp:143-177 | the search starts with the largest block size of which two rows of blocks are no wider than the window |
| `AecWindows.SplitAecWin` | hwi/IspParamsSplitter.cpp:179-333 | the mode is the one the merging side derives from the original window, the corrected window and both halves are as specified |
| `AecWindows.BothSidesAgree` | aiq_core/RkAiqResourceTranslatorV3x.cpp:85-125 | for every window in the picture the decision is the same before and after correction, and the corrected window needs no further correction |
| `AecWindows.CorrectedIsCentred` | hwi/IspParamsSplitter.cpp:255-331 | a window corrected to be cut in two has grown and its middle is an edge of the overlap |
| `AecWindows.CorrectedInNumbers` | hwi/IspParamsSplitter.cpp:240-331 | which edge a corrected window is cut or mirrored at, in numbers |
| `AecWindows.CorrectionIsNearest` | hwi/IspParamsSplitter.cpp:240-331 | an unsettled window gets the size, for one ISP or for both, that differs less from the one asked for; both halves on a tie |
| `AecWindows.StartOrOneLessFits` | hwi/IspParamsSplitter.cpp:143-177 | for a window of at least two blocks per half the starting block size fits or one less does |
| `AecWindows.HalvesAreInside` | hwi/IspParamsSplitter.cpp:143-177 | the loop ends with the starting size or one less; the halves are equal, the right offset is even, both lie in their ISPs and they join without a gap beyond one column of overlap, unless the left half ends before the overlap |
| `AecWindows.WindowsAreInside` | hwi/IspParamsSplitter.cpp:179-333 | in every mode both windows lie inside their ISPs |
| `SubWindows.SplitAecSubWin` | hwi/IspParamsSplitter.cpp:76-141 | in place: each enabled sub-window is cut, every other entry is left alone |
| `SubWindows.EnableSides` | hwi/IspParamsSplitter.cpp:654-672 | the sides that the mode uses are enabled; disabled sub-windows are left alone |
| `SubWindows.MergeAecSubWinSums` | aiq_core/RkAiqResourceTranslatorV3x.cpp:242-246 | the sums of the enabled sides, in 32 bits |
| `SubWindows.CutTiles` | hwi/IspParamsSplitter.cpp:76-141 | a sub-window goes to the left ISP if it ends there, else to the right one if it begins there, else to both; both parts lie inside their ISPs and the enabled ones tile it |
| `SubWindows.SubWindowSumSurvives` | aiq_core/RkAiqResourceTranslatorV3x.cpp:242-246 | for every image, the merged sum of the enabled sides is the sum over the original sub-window: no pixel lost, none counted twice |
| `SubWindows.PixelCountsInside` | aiq_core/RkAiqResourceTranslatorV3x.cpp:242-246 | in these sums a pixel counts exactly for the windows it lies in |
| `GridMerge.SplitAecWeight` | hwi/IspParamsSplitter.cpp:51-74 | in place: each half holds the weights of the columns its own columns lie in, or a copy of the whole grid |
| `GridMerge.MergeAecWinMeans` | aiq_core/RkAiqResourceTranslatorV3x.cpp:136-178 | in place, for one channel: each mean is that of the left grid, that of the right one, or the average of its pair of columns, by mode, then black level taken off and scaled |
| `GridMerge.ScaledIsIntegerPart` | aiq_core/RkAiqResourceTranslatorV3x.cpp:136-178 | a scaled mean is the integer part, towards zero, of the exact value, modulo 2^16 |
| `GridMerge.AveragingUndoesSplittingIff` | hwi/IspParamsSplitter.cpp:59-68 | merging the halves of a row gives back every row exactly when the number of columns is odd or zero |
| `GridMerge.SplitWeightsComeBack` | aiq_core/RkAiqResourceTranslatorV3x.cpp:154-166 | a grid of weights that is split and merged in two-sided mode, without black level and gain, is what it was |
| `GridMerge.MergeAwbBlkStats` | aiq_core/RkAiqResourceTranslatorV3x.cpp:381-437 | in place: each block is that of the left grid, that of the right one, or the sum of its pair of columns, by mode, every channel added modulo 2^32 |
| `GridMerge.PairsAddUp` | aiq_core/RkAiqResourceTranslatorV3x.cpp:413-434 | for odd grids every block is in exactly one pair: the pairs add up to the left row plus the right row, in all four channels |
| `GridMerge.RowTotalsAddIff` | aiq_core/RkAiqResourceTranslatorV3x.cpp:413-434 | the merged row adds up to both rows exactly if every sum of a pair fits in 32 bits, and never to more |
| `GridMerge.MergedBlocksKeepTotalsIff` | aiq_core/RkAiqResourceTranslatorV3x.cpp:413-434 | the same for the whole grid in memory |
| `GridMerge.SmallBlocksFit` | aiq_core/RkAiqResourceTranslatorV3x.cpp:413-434 | blocks whose channels stay below 2^31 always fit |
| `HistMerge.Bin` | aiq_core/RkAiqResourceTranslatorV3x.cpp:269-271 | the target bin is always in range |
| `HistMerge.BinIsNearest` | aiq_core/RkAiqResourceTranslatorV3x.cpp:269-271 | bins below black level go to bin 0; the others go to the nearest bin to the scaled distance, or to the last one |
| `HistMerge.BinIsMonotone` | aiq_core/RkAiqResourceTranslatorV3x.cpp:269-271 | moving bins keeps their order |
| `HistMerge.MergeAecHistBinStats` | aiq_core/RkAiqResourceTranslatorV3x.cpp:256-294 | in place: every merged bin holds, modulo 2^32, what the source bins moved to it hold, of the left histogram in left mode, of the right one in right mode, and of both in two-sided mode; so do the totals |
| `HistMerge.MergedBinsAddUp` | aiq_core/RkAiqResourceTranslatorV3x.cpp:256-294 | no count is lost: the merged bins add up to the source bins |
| `HistMerge.MergingKeepsCumulativeCounts` | aiq_core/RkAiqResourceTranslatorV3x.cpp:256-294 | cumulative counts survive: the merged bins below any bin add up to the source bins below some bin |
| `HistMerge.MergedHistogramConserves` | aiq_core/RkAiqResourceTranslatorV3x.cpp:256-294 | what is left in the array totals, modulo 2^32, the left histogram in left mode, the right one in right mode, and both in two-sided mode |
| `HandleChain.IncreasingIsSorted` | aiq_core/RkAiqCore.cpp:1297-1342 | an increasing list of ids is the ordered iteration of its elements |
| `HandleChain.AlgoHandles.ChainIsOrderedMap` | aiq_core/RkAiqCore.cpp:1297-1342 | walking the chain from the default handle visits the map values in increasing id order and ends |
| `HandleChain.AlgoHandles.AddAlgo` | aiq_core/RkAiqCore.cpp:1297-1342 | appends a fresh, disabled handle with the id after the largest; types without custom algorithms change nothing |
| `HandleChain.AlgoHandles.Unlink` | RkAiqCamGroupManager.cpp:1265-1274 | the walk finds the predecessor and takes exactly the removed handle out of the chain |
| `HandleChain.AlgoHandles.RmAlgo` | RkAiqCamGroupManager.cpp:1240-1283 | id 0 is never removed; unknown ids and a running group are errors; otherwise chain and map lose exactly that handle |
| `HandleChain.AlgoHandles.EnableAlgo` | aiq_core/RkAiqCore.cpp:1459-1516 | one handle is switched; results are required exactly when some handle in the chain is enabled, and all handles learn whether two are |
| `HandleChain.RemovedIdComesBackIff` | aiq_core/RkAiqCore.cpp:1310-1312 | a removed id is given out again by the next addition exactly when it was the largest and its predecessor is still there |
| `StatsBuffers.StatsBuffers.CacheIspStats` | aiq_core/RkAiqCore.cpp:1681-1702 | every buffer stays in exactly one of free, cached and held; contents change as in a bounded queue of values; only the oldest cached buffer is recycled; held buffers are not rewritten |
| `StatsBuffers.StatsBuffers.Get3AStats` | aiq_core/RkAiqCore.cpp:1704-1738 | hands out the oldest cached statistics; stopped, empty and timed-out cases change nothing |
| `StatsBuffers.StatsBuffers.Release3AStats` | aiq_core/RkAiqCore.cpp:1740-1749 | a held buffer becomes free; any other pointer is ignored |
| `StatsBuffers.StatsBuffers.Get3AStatsCopy` | aiq_core/RkAiqCore.cpp:1751-1763 | copies the oldest cached statistics and frees the buffer |
| `StatsBuffers.StatsBuffers.Stop` | aiq_core/RkAiqCore.cpp:688-696 | all buffers become free |
| `StatsBuffers.TakenInOrderOfArrival` | aiq_core/RkAiqCore.cpp:1681-1763 | over every sequence of calls, stops and starts users get statistics in order of arrival, each at most once, and every buffer stays in exactly one place |
| `StatsBuffers.HeldIsKeptIff` | aiq_core/RkAiqCore.cpp:1681-1749 | over every such sequence a buffer that the user holds stays held exactly until it is released or the engine stops, and until then its contents are not rewritten |
| `StatsBuffers.LostIffAllAreHeld` | aiq_core/RkAiqCore.cpp:1687-1696 | new statistics are lost exactly when users hold all buffers; otherwise they are the newest cached, and of the others the oldest goes exactly if no buffer was free |
| `CalibHandshake.UpdateFlags.NotifyUpdate` | aiq_core/RkAiqCore.cpp:3152-3159 | the bits of the notified groups are added |
| `CalibHandshake.UpdateFlags.UpdateCalib` | aiq_core/RkAiqCore.cpp:3134-3150 | a group prepares exactly when its bit is set, and clears that bit only |
| `CalibHandshake.PreparesFollowNotifies` | aiq_core/RkAiqCore.cpp:3134-3170 | over any stretch of any interleaving: a set bit is kept until its group prepares, and a group never prepares more often than it was notified |
| `CalibHandshake.NotifiedGroupsHavePrepared` | aiq_core/RkAiqCore.cpp:2437-2446 | when the wait returns, every notified group has prepared since: exactly once unless it was notified again |
| `CalibHandshake.OnlyNotifiedGroupsPrepare` | aiq_core/RkAiqCore.cpp:3134-3150 | no group prepares more often than it was ever notified |
| `IniBuffer.Ini.TrimBack` | common/rkaiq_ini.c:56-60 | in place: trailing blanks, and only those, become NULs |
| `IniBuffer.Ini.DiscardLine` | common/rkaiq_ini.c:62-67 | in place: the rest of the line becomes NULs |
| `IniBuffer.Ini.UnescapeQuotedValue` | common/rkaiq_ini.c:70-97 | in place: the decoded value replaces the quoted one, the write head never passing the read head |
| `IniBuffer.Ini.SplitLine` | common/rkaiq_ini.c:128-166 | one line with a key: discarded, or cut into key and value, and the position moves on inside the buffer |
| `IniBuffer.Ini.SplitData` | common/rkaiq_ini.c:102-172 | main result: for every text, the NUL-separated strings of the buffer afterwards are the headers, keys and values that the text says, in order; it terminates and never passes the end |
| `IniLookup.WalkIsLookup` | common/rkaiq_ini.c:228-257 | searching the strings is searching the list of sections and entries, for entries with a key |
| `IniLookup.SameNameIsAnyCase` | common/rkaiq_ini.c:37-46 | names are the same exactly if they are equally long and differ only in the case of letters A to Z |
| `IniLookup.LookupFindsFirstMatch` | common/rkaiq_ini.c:228-257 | for every list of sections and entries: the answer is the value of the first entry in a section of that name whose key is the requested one, both in any case of letters, and nothing exactly when there is none |
| `IniLookup.ItemsAreShaped` | common/rkaiq_ini.c:102-172 | what is stored never begins like a header by mistake and holds no NUL |
| `IniLookup.FaithfulIffEveryEntryHasKey` | common/rkaiq_ini.c:138-166 | the split buffer answers every question like the text exactly when no line has an empty key |
| `IniDocument.DecodeEscape` | common/rkaiq_ini.c:70-97 | decoding undoes escaping, for every value |
| `IniDocument.DecodeChars` | common/rkaiq_ini.c:70-97 | every way to write a quoted value, escaped or not, decodes to the characters it is written for |
| `IniDocument.ReadingUndoesWriting` | common/rkaiq_ini.c:102-172 | round trip: any document of blank lines, comments, headers, open headers, plain, quoted and empty pairs and lines without a pair is read back as what it means |
| `IniDocument.FinalNewlineSaysNothing` | common/rkaiq_ini.c:102-172 | a text means the same with or without a final newline |
| `IniDocument.WrittenDocumentIsFound` | common/rkaiq_ini.c:228-257 | for such a document with keys, the search gives the value of the first entry whose section and key are those asked for in any case of letters, and nothing when none is |
| `IniDocument.PairWithoutKeyShiftsTheRest` | common/rkaiq_ini.c:138-166 | a concrete document with an empty key, after which a later key is not found |
| `IniReader.Next` | common/rkaiq_ini.c:48-54 | the position after the current string and its NULs, never past the end |
| `IniReader.StrCmpCi` | common/rkaiq_ini.c:37-46 | zero exactly for names of equal length that are, at every place, the same character or the two cases of one letter A to Z |
| `IniReader.Get` | common/rkaiq_ini.c:228-257 | the walk over the buffer returns the position of the value that the search over the strings finds |
| `IniReader.FoundInBuffer` | common/rkaiq_ini.c:228-257 | in a buffer that holds the strings of any entries, the search finds the first entry for a section and key written in any case of letters |
| `IniReader.LoadAndGet` | common/rkaiq_ini.c:176-257 | end to end: a file that cannot be opened or is read short loads nothing; otherwise the answer is the value of the first entry of the text for that section and key in any case of letters, if the text holds no NUL and every entry has a key |

## Left out

- Bit masks are sets of bit positions, except the camera mask of `Lifecycle` and the masks of `Dispatcher`.
- ResultRefs: the worker's frame id is taken when the record leaves the queue; the code reads it again after its put
  (RkAiqCamGroupManager.cpp:88-89).
- CamGroupResults: the unlocked writes to a forced record, its ready flag and its masks, are one step, at
  which the flag is set; the frame id that a completion uses is that of the record.
- CamGroupRuns.QueuedIsComplete: says nothing about what forced records hold, whose masks the code overwrites
  without deliveries.
- CamGroupOrder.PredecessorIsAheadIff: like all statements on the order, for runs without a clear-all under a
  reference; after one the code works on deleted records.
- SofSync: calls come from bound cameras, each frame at most once per camera; the group does not stop during a run,
  so the shared flag that `stop` spins on is not modelled.
- SofSync: the SOF mark takes the bound of the last clear and is not monotone, so no claim about late frames is made
  beyond `MarkFallsIff`.
- CollectorRuns.LogsAreEqualIff: for runs in which some ids never complete, equality of the logs is only tied to the
  set of trimmed ids, not to the messages alone.
- CamGroupPassing.OrderIsCertainIff: where no ready record has a next frame that can be delivered, because the mark
  refuses it, or an unbound camera was counted for it, or it is ready as well, or the table overflows for one of the
  first four frames, only the conditions on each run in `CamGroupApart` are given.
- CamGroupResults: what `prepare` files for frame 0 it clears before it returns, and is not modelled; stop, start
  and prepare do not overlap.
- ResultRefs: a restart waits until no thread refers to a record; clearing everything while threads are active is
  covered only as the step that breaks the counts.
- Reference counts are unbounded natural numbers; algorithm ids and record addresses are never exhausted.
- AecWindows: windows lie inside the picture, the picture is less than 65536 wide and of even width; the parameters
  of the vertical direction are only copied.
- The window split for white balance drops low bits of the width that the merging side keeps; the split and merge
  for focus need more width conditions. Neither is modelled.
- SubWindows: the black-level step after adding the sums is left out.
- GridMerge.MergeAecWinMeans: scaling is over real numbers, and a negative result, which the code converts to an
  unsigned 16-bit number, is kept modulo 2^16; grids are two-dimensional arrays instead of flat ones.
- Dispatcher: in the single-thread mode the thread keeps its own list of groups; after one is lost it is not
  followed.
- CamGroupManager.ReprocLoop: syncing with the master camera, re-preparing and reprocessing are reduced to whether
  they succeed; relaying is the data handed on.
- HistMerge: the ratio is a real number and not negative.
- CalibHandshake: safety only; that a group thread ever receives a message is not part of the model, nor is a group
  of the kind "all", whose mask covers 32 groups.
- HandleChain: reference counts of handles, and the condition variable that delays a removal while the core runs;
  the chain is modelled for one algorithm type.
- StatsBuffers: copying the statistics into a buffer is one assignment; waiting for statistics is the outcome it can
  end with.
- Lifecycle: what `prepare` computes is reduced to whether it succeeded.
- SofSource: exposure and buffer lookups are reduced to how many messages can be posted before one fails; a run of
  events is one session, since `stop` sets the last posted id back to zero.
- IniReader: a file is its contents, if it can be opened, and how many bytes are read; running out of memory, and
  `rkaiq_ini_sget` with its format scanning, are not modelled.
- Device drivers, tuning algorithms, parameter copying macros, the thumbnail service, tool server and the xcore
  primitives are not part of this model; lists, pools and mutexes are queues, sets and atomic steps.
