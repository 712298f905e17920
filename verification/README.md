# CF, a CFDP file transfer engine: verified model

CF transfers files over unreliable links by the CCSDS File Delivery Protocol
(CCSDS 727.0-B-5). This project models its core in Dafny and proves what the core is for:
a source file is deleted only after the other end holds it byte for byte. Verify it with
`dafny verify dfyconfig.toml`.

## How it is built

| file | content |
|---|---|
| `ChunkSpec`, `ChunkList`, `Gaps`, `ListPool` | the bounded, merging, evicting list of file ranges, the gaps in it, and the pool such lists come from |
| `Crc` | the modular checksum, section 4.2, as a shift register that keeps stale bytes |
| `Cfdp`, `Link` | packets, statuses, configuration, files; what a packet says truly about a file |
| `RxSpec`, `RxTransaction` | the receiving transaction: one function per step, and the object updated in place |
| `RxRuns`, `RxRetries`, `RxTermination`, `RxChecksum`, `RxRetention`, `RxReuse`, `RxFile` | every run of it, with any list: retention safety, error freeze, retries, termination, checksum, files |
| `RxReports`, `RxAnswers`, `Statuses` | what its FINs and ACKs say, how it takes those of the sender, and what the status of one end becomes at the other |
| `TxSpec`, `TxTransaction` | the sending transaction in the same two forms |
| `TxReads`, `TxRuns`, `TxRetries`, `TxTermination`, `TxReports` | reading the source, every run of a sender, its retries and its end; what a FIN does to it and to the source |
| `NakRepair`, `Refusals` | from the receiver's gaps over a NAK to the sender's list, to file data and back; requests and entries that lead nowhere |
| `EndToEnd`, `ShortReads`, `StaleLists` | both transactions and a link that loses, repeats and reorders; the runs that show the two assumptions are needed |
| `Reach`, `Transfer`, `Delivery` | runs of that system that deliver any file over any losses, so the guarantee is not empty |
| `Codec`, `CodecBuffers`, `Wire`, `LinkRuns` | PDUs and whole packets in octets, sections 5.1 to 5.4, and the packets of every run |
| `CList`, `Queues`, `History`, `Ticks`, `Dispatch` | rings, queues with counters, history entries, tick resumption, dispatch and its counters |

Code that updates objects, arrays or rings in place is a class here (`ChunkList`,
`Register`, `RxTransaction`, `TxTransaction`, `Encoder`, `Decoder`, `List`, the three
`Channel`s, `Counters`). Each of their methods is proved to leave exactly the state that
the function of the same step gives; the properties over many steps are then proved about
these functions. Outcomes of operating system and software bus calls (a buffer, a seek, the
bytes a read or write moves, a rename) are parameters, so every theorem holds for all of them.

## Where the code does not do what it promises

Each of these is a lemma, an exact condition where there is one.

* Nothing empties a chunk list when it changes hands, so a new transaction begins with what
  the last holder left (`ListPool.EmptyIff`, `ListPool.NeverEmptyAgain`). A receiver counts those
  bytes as received: it can retain another file and the sender delete the source, with no call
  failing (`StaleLists.StaleListLosesFile`). RETAINED stands for bytes that arrived, in every run,
  exactly if the list was empty (`RxReuse.WholeIff`); in general every byte arrived or was in the
  list (`RxRuns.RetentionSafety`), and every other byte is right (`EndToEnd.DeletedMeansRight`).
* A gap reported by the gap computation may end behind the scope, and an empty list
  reports from offset 0 whatever the start is (`Gaps.ReportedExactIff`, `Gaps.OverhangExample`).
  Cut at both ends, what is reported is right (`Gaps.ReportedClipsToGaps`). With an entry left
  behind the end of the file the request goes out uncut, and the sender refuses it every time
  (`Refusals.RefusedIff`, `Refusals.NeverAnswered`, `Refusals.RefusedUntilLimit`).
* An entry left in the sender's list that reaches behind the end of the file is never served and
  blocks what joins it (`NakRepair.ServeFinishesIff`, `Refusals.BlockedIff`, `Refusals.JoinedExample`);
  it never makes the sender send wrong bytes (`EndToEnd.DeletedOnlyIfDelivered`).
* A full list of entries behind the end of the file drops small pieces of the file
  (`NakRepair.AnsweredGapGrowsIff`).
* With room for one range only, a full list that starts the file stops all requests
  (`NakRepair.NakSilentIff`).
* File data that arrives while the checksum is computed moves the read position, and the
  checksum goes on behind it: a good file can be discarded (`RxChecksum.LateDuplicateDiscardsGoodFile`)
  and one with another checksum retained (`RxChecksum.UncheckedFileRetained`). The stream digested is
  the file if and only if the data end where the computation stands and change nothing before
  (`RxChecksum.DataWhileComputing`); without such data RETAINED means that the checksums agree
  (`RxRetention.RetainedMatchesEof`).
* If such data end behind the end of the file, the computation never ends, and only the inactivity
  timer ends the transaction (`RxTermination.DataMakesStuckIff`, `RxTermination.ValidateLeftIff`,
  `RxTermination.EndsByRetryLimitIff`); a sender of this kind never sends such data (`LinkRuns.NeverStuck`).
* File data that arrives after RETAINED was decided turns a success into an error
  (`RxRuns.LateArrivals`).
* A read that delivers some but not all bytes leaves the sender's cached position behind
  the real one (`TxReads.PositionsPartIff`), and the next request is answered with the wrong bytes.
  The checksum need not notice: the receiver can retain another file and the sender delete
  the source (`ShortReads.ShortReadLosesFile`). Without such a read while requests are served,
  and with clear lists, that never happens (`EndToEnd.DeletedOnlyIfDelivered`).
* The header of a packet sent in holdover says class 1, so a class 2 peer drops the very
  acknowledgements holdover is kept for (`Dispatch.HoldoverRepliesDropped`,
  `Dispatch.HoldoverAckOfEofDropped`).
* Two assertions the source calls impossible can fail: a NAK still due when a transaction is
  abandoned (`Dispatch.AbandonedNakIff`, `Dispatch.AbandonedNakRun`; without an abandon it
  cannot, `Dispatch.NakOnlyInClass2`), and metadata still due in holdover, without any command
  (`Dispatch.MetadataInHoldoverIff`, `Dispatch.MetadataInHoldoverRun`).
* A history entry keeps the error of its last transaction for good, so every failed
  transaction spoils one entry, and later ones that get it never start
  (`History.StaleStatusIff`, `History.FailuresSpoil`, `History.NothingStartsAfter`).
* Freeing a transaction wipes its queue index to 0, which names the pending queue; the test
  for an already freed transaction never succeeds (`Queues.IndexNeverSaysFree`).
* A delivery code of 2, with which a receiver starts out, reads as COMPLETE at the other end
  (`Codec.FinRoundTrip`), so a receiver that could not create its temporary file reports COMPLETE and
  DISCARDED beside the error (`RxReports.FinReports`).
* INCOMPLETE does not mean that something is missing: a file is COMPLETE exactly if the
  transaction was still without error in the wakeup that looks (`RxReports.RunFinds`,
  `RxReports.CancelledComplete`).
* A sender that is abandoned while it has data to send is never recycled: it waits for a timer that
  stands still (`TxReports.AbandonForgets`, `TxReports.NeverRecycled`). Every other one is, in time
  (`TxReports.HoldLasts`).
* No metadata ever request closure, as nothing sets the flag (`TxReports.ClosureNeverAsked`); what a
  class 1 sender does with the FIN it would then get is proved all the same (`TxReports.ClosureIff`).
* The comment on ACKs says that they tell of an error this end has; they name the condition code of
  the PDU they answer, whatever the status is (`RxAnswers.EofAcks`, `TxReports.FinAcks`).

## Model

The properties come first; below them the methods, each proved to leave exactly the state of its step.

| member | source | states |
|---|---|---|
| EndToEnd.DeletedOnlyIfDelivered | fsw/src/cf_cfdp_s.c:548-630 | Class 2, every run of sender, receiver (restarted any number of times) and a link that loses, repeats and reorders, in which no read that serves a request is cut short (reads of new data may be) and no list the receiver is handed remembers a byte of the file (the sender's list may remember anything): a deleted source, or a FIN on the link that claims COMPLETE and RETAINED, implies that the retained file is the source byte for byte |
| EndToEnd.DeletedMeansRight | fsw/src/cf_cfdp_s.c:548-630 | The same with whatever lists: the retained file has every byte of the source but those the receiver's lists remembered when they were handed out |
| StaleLists.StaleListLosesFile | fsw/src/cf_cfdp.c:2116-2128 | That condition is needed: a whole run in which no call fails, with a list left by an earlier file of the same size; one data PDU is lost, another file of the same checksum is retained, reported COMPLETE and RETAINED, and the source is deleted |
| StaleLists.WholeList | fsw/src/cf_chunk.c:238-293 | What a receiver that has a whole file of n bytes leaves in its list is the one entry from 0 to n |
| ListPool.EmptyIff | fsw/src/cf_cfdp.c:258-278 | Over every run of the pool of a channel: a new receiving transaction is handed the list that waits at the front, usable as it is, and empty if and only if no transaction that held it before left entries in it |
| ListPool.NeverEmptyAgain | fsw/src/cf_cfdp.c:1056-1069 | Once as many receiving transactions as there are lists have remembered something, one after the other, no receiver is ever handed an empty list again, whatever else happens |
| ListPool.StainedForGood | fsw/src/cf_cfdp.c:2121-2128 | A list that is not empty once never is again, over every run |
| ListPool.RunValid | fsw/src/cf_cfdp.c:2096-2148 | Over every run each list is with one transaction or waits, once, none is lost, and every list handed out is sorted, separated and within its room |
| ListPool.OneRangeLeft | fsw/src/cf_cfdp_r.c:109-176 | Any range can be left in an empty list, by a run of one data PDU |
| ShortReads.ShortReadLosesFile | fsw/src/cf_cfdp_s.c:1004-1028 | That one assumption is needed: a whole run, with one short read among the requests and nothing else failing, in which another file of the same checksum is retained, reported COMPLETE and RETAINED, and the source is deleted |
| ShortReads.FromTheStart | fsw/src/cf_cfdp_s.c:1004-1028 | The same run from a freshly started sender and a freshly set up receiver |
| EndToEnd.EveryActionDefined | fsw/src/cf_chunk.c:238-293 | In every run, whatever the reads deliver, every packet ever sent meets the range assertions of the other side's chunk list |
| Delivery.Delivers | fsw/src/cf_cfdp_s.c:548-630 | The guarantee is not empty: for every file, the empty one included, any lists without entries behind the end of the file, and every choice of data PDUs that arrive in the first pass, in any order and number, the others lost, the run goes on through NAK rounds until nothing is missing; then every byte the receiver's list did not remember is right, and if size and checksum are, the file is retained, the source deleted, and both ends are held over without error. With an empty list it is the source |
| Delivery.DeliversFrom | fsw/src/cf_cfdp_r.c:1129-1188 | The same from any state of a sound run in which the sender has sent its EOF and the receiver has it, whatever the receiver has and lacks and whatever the sender has listed |
| Delivery.StartBegins | fsw/src/cf_cfdp_s.c:663-681 | A freshly started sender and a freshly set up receiver, with any lists, are a start from which that run exists |
| TxReads.PositionsPartIff | fsw/src/cf_cfdp_s.c:49-168 | The bytes of a data PDU are the file's at the position the file stands at; the cached and the real position part exactly when a read delivers some bytes but not all |
| TxReads.ShortReadSendsWrongBytes | fsw/src/cf_cfdp_s.c:1004-1028 | Concrete step: after a short read while serving a NAK the next data PDU says offset 0 and carries bytes 2..6 |
| TxReads.SendGenuine | fsw/src/cf_cfdp_s.c:49-168 | A data PDU lies inside the file, whatever was asked for, and carries the source bytes its offset names if the file stood where the transaction believes |
| TxReads.SendDigests | fsw/src/cf_cfdp_s.c:49-168 | Unless a read was cut short, the checksum register follows the file: it has digested exactly the bytes sent so far |
| RxFile.ProcessFdFaithful | fsw/src/cf_cfdp_r.c:109-176 | Writing data of the source keeps the temporary file right on every byte the chunk list remembers and did not remember from the start, on partial writes too |
| RxFile.CompleteIsSource | fsw/src/cf_cfdp_r.c:78-101 | If the completeness check succeeds, the temporary file has every byte of the source but those the list remembered from the start |
| RxFile.RetentionFaithful | fsw/src/cf_cfdp_r.c:687-817 | Disposing of the file either leaves the final file as it was or makes it such a file; RETAINED only in the second case |
| RxFile.TickFaithful | fsw/src/cf_cfdp_r.c:1129-1188 | A wakeup keeps the file invariant, and what it sends is true: retention claimed only for such a file, requests never empty |
| RxRuns.RetentionSafety | fsw/src/cf_cfdp_r.c:687-817 | Every run of a new receiving transaction with any list: a RETAINED report implies metadata and EOF received with the same size, every byte received or in the list it was handed, computed checksum equal to the EOF's, file moved |
| RxReuse.WholeIff | fsw/src/cf_cfdp_r.c:78-101 | RETAINED implies that every byte arrived, in every run, if and only if the list handed out was empty |
| RxRuns.MoveOnlyWhenSafe | fsw/src/cf_cfdp_r.c:742-771 | The only step that moves a file to its final name is a wakeup in FILESTORE without error; the moved bytes are those of the temporary file |
| RxRuns.LateDataSpoilsReport | fsw/src/cf_cfdp_r.c:109-176 | One PDU after RETAINED: the status stays clean if and only if it is neither file data nor, in class 2, an EOF above the limit |
| RxRuns.LateArrivals | fsw/src/cf_cfdp_r.c:109-176 | Any PDUs after RETAINED: the status stays clean if and only if none is file data and the EOFs, counted from the first, stay within the limit; the retained file stays in any case |
| RxRuns.ErrorFreeze | fsw/src/cf_cfdp.c:2156-2162 | From the first error on, over every run: status, chunk list and final file stay; the temporary file can only be discarded |
| RxRuns.SubStateMonotone | fsw/src/cf_cfdp_r.c:1002-1075 | No step, whatever arrives or fails, takes the sub-state back |
| RxTermination.EndsByInactivity | fsw/src/cf_cfdp_r.c:1129-1188 | With nothing arriving and buffers available, an active receiver of either class is held over within the inactivity timer plus a constant number of wakeups |
| RxTermination.EndsByRetryLimit | fsw/src/cf_cfdp_r.c:875-994 | Once it has the EOF, a class 2 receiver is held over within a bound made of the retry limit, the ack timer and the checksum wakeups left, however long the inactivity timer is |
| RxTermination.EndsByRetryLimitIff | fsw/src/cf_cfdp_r.c:917-932 | That bound holds for exactly the states that are not stuck: in VALIDATE, without error, the read position behind the end of the file |
| RxTermination.ValidateLeftIff | fsw/src/cf_cfdp_r.c:485-549 | With nothing arriving, whatever the reads do, VALIDATE is left before the inactivity timer fires if and only if the read position is not behind the end of the file |
| RxTermination.StuckUntilInactive | fsw/src/cf_cfdp_r.c:485-549 | A stuck transaction stays in VALIDATE for exactly as long as the inactivity timer runs, and then fails with INACTIVITY_DETECTED |
| RxTermination.DataMakesStuckIff | fsw/src/cf_cfdp_r.c:109-176 | One data PDU makes a transaction in VALIDATE stuck if and only if it is written in whole and ends behind the end of the file |
| RxTermination.StepReceiving | fsw/src/cf_cfdp_r.c:1129-1188 | Every other step, any file data inside the file included, keeps what the bound of the retry limit rests on |
| LinkRuns.NeverStuck | fsw/src/cf_cfdp_r.c:485-549 | Over every run of both ends, whatever the reads deliver, the receiver is never stuck |
| RxTermination.AlwaysRecycled | fsw/src/cf_cfdp_r.c:1164-1187 | No receiving transaction, held over or not, stays in memory for ever: an explicit bound on the wakeups until it is recycled |
| RxTermination.EveryRunEnds | fsw/src/cf_cfdp_r.c:1129-1188 | So both bounds hold from any state of any run of a new receiving transaction |
| RxTermination.StepSane | fsw/src/cf_cfdp_r.c:1129-1188 | No step, with any PDUs, loses what the inactivity bound rests on |
| TxTermination.EndsByInactivity | fsw/src/cf_cfdp_s.c:886-946 | With nothing arriving and buffers available, whatever the reads and seeks do, an active sender of either class is held over within the bytes still to send plus the inactivity timer |
| TxTermination.EveryRunEnds | fsw/src/cf_cfdp_s.c:886-946 | So from any state of any run of a sender |
| TxTermination.StepSane | fsw/src/cf_cfdp_s.c:886-946 | No step of a sender, with any PDUs and any outcome of the calls, loses what that bound rests on |
| RxChecksum.CrcLoopExact | fsw/src/cf_cfdp_r.c:485-549 | One call digests exactly the bytes up to the rate or the end of the file, in blocks |
| RxChecksum.ChecksumInWakeups | fsw/src/cf_cfdp_r.c:917-932 | From any read position in VALIDATE, with reads that succeed: FILESTORE comes after exactly ceil(bytes left / rate) wakeups and one more, not before, with the checksum of the complete words of the bytes digested |
| RxChecksum.EntersValidate | fsw/src/cf_cfdp_r.c:436-477 | The wakeup that finds the file complete starts that computation |
| RxChecksum.FileInWakeups | fsw/src/cf_cfdp_r.c:917-932 | Undisturbed, FILESTORE comes after exactly ceil(size / rate) wakeups and one more with the checksum of the temporary file, the empty file included |
| RxChecksum.BothEndsAgree | fsw/src/cf_cfdp_r.c:485-549 | The result the receiver brings to FILESTORE equals the sender's over whatever pieces the file was sent in, the empty file included |
| RxRetention.RetainedMatchesEof | fsw/src/cf_cfdp_r.c:687-817 | Every run in which no file data are accepted between the start of the checksum and the disposal of the file, with any other PDUs and any outcome of the calls: RETAINED implies that the file under the final name has the checksum of the EOF |
| RxChecksum.StreamDecides | fsw/src/cf_cfdp_r.c:687-817 | Every run from VALIDATE on, any PDUs, reads and number of wakeups: a complete file is retained if and only if the checksum of the stream digested is the one in the EOF |
| RxChecksum.DataWhileComputing | fsw/src/cf_cfdp_r.c:109-176 | Any data PDU that arrives while the checksum is computed, over any number of wakeups: the stream digested is what was digested before and what follows the PDU, and it is the file as written if and only if the PDU ended where the computation stood and changed nothing before |
| RxChecksum.OverwriteGoesUnnoticed | fsw/src/cf_cfdp_r.c:109-176 | A PDU that overwrites digested bytes and ends where the computation stands leaves the checksum of the file as it was |
| RxChecksum.ResultDecides | fsw/src/cf_cfdp_r.c:687-817 | A complete file is retained as it is, or discarded with a checksum failure, by the comparison of the result with the EOF's checksum alone |
| RxChecksum.UncheckedFileRetained | fsw/src/cf_cfdp_r.c:687-817 | Concrete run: a file with checksum 11 is reported RETAINED under an EOF with checksum 3 |
| RxChecksum.LateDuplicateDiscardsGoodFile | fsw/src/cf_cfdp_r.c:917-958 | Concrete run: a repeated last PDU makes a complete and correct file be discarded with a checksum failure |
| TxRuns.SenderSafety | fsw/src/cf_cfdp_s.c:548-630 | Every run of a sender of either class, with any PDUs and any outcome of the reads: a source given up was not to be kept, was wholly sent, and in class 2 acknowledged and reported COMPLETE and RETAINED |
| TxRuns.EofTellsTruth | fsw/src/cf_cfdp.c:492-533 | Every run in which no read that serves a request comes short: every EOF without an error names size and checksum of the source, in whatever pieces the data went out; if no other read came short, every EOF does |
| TxRuns.StepPositioned | fsw/src/cf_cfdp_s.c:49-168 | Only a read that serves a request and is cut short before the end of the file can part the file from the transaction and leave no error behind |
| TxRuns.RunRanged | fsw/src/cf_cfdp_s.c:265-340 | Over every run a sender keeps its list, whatever it held, one that another transaction can use |
| TxRuns.StepTrusts | fsw/src/cf_cfdp_s.c:548-630 | In class 2 the source is given up only after a FIN that claims retention, whatever happens |
| TxRuns.StartsIff | fsw/src/cf_cfdp.c:1077-1104 | A pending transaction is put to work if and only if its status is clean, there is a chunk list and the file can be opened and measured; else it is recycled with no file open and the error that was left, NO_RESOURCE or FILESTORE_REJECTION |
| TxRuns.DeletedWithoutError | fsw/src/cf_cfdp_s.c:806-816 | The step that gives up the source is a wakeup in FILESTORE of a complete transaction without error |
| TxRuns.ErrorFreeze | fsw/src/cf_cfdp.c:2156-2162 | From the first error on, over every run of a sender: the status stays and the source is not deleted |
| Statuses.FinTellsStatus | fsw/src/cf_cfdp.c:610-654 | A FIN on its way, over encoding and decoding: a clean sender past its EOF that takes it first ends with the very status the receiver had when it sent it, if that is a condition code; else as for the code it stands for, and with an error exactly if the receiver had one |
| Statuses.EofTellsStatus | fsw/src/cf_cfdp.c:492-533 | The same for an EOF and a clean receiver, with checksum and size of the sender |
| TxReports.FirstFinDecides | fsw/src/cf_cfdp_s.c:227-257 | Every run of a sender of either class: once the first FIN it takes carries an error, its status is an error for the rest of the run (that code, if it was clean and past its EOF; EARLY_FIN before it), and a source still there is never given up |
| TxReports.FirstFinNoted | fsw/src/cf_cfdp_s.c:203-257 | The first FIN a sender takes, in any state that takes one, leaves its three fields, and its code as the status of a clean transaction, 0 included; an early one makes it EARLY_FIN |
| TxReports.SourceFate | fsw/src/cf_cfdp_s.c:548-630 | What becomes of the source, in all cases: to the fail directory if and only if the transaction failed or timed out, was not commanded and there is one; given up if and only if it succeeded, is not to be kept and, in class 2, RETAINED and COMPLETE were reported; moved and not deleted if and only if there is a move directory; and only if the call succeeds |
| TxReports.SourceMovesOnce | fsw/src/cf_cfdp_s.c:806-816 | No other step touches the source, in any state a run leads to |
| TxReports.ArriveNotes | fsw/src/cf_cfdp_s.c:203-380 | What each PDU makes a sender note: FINs counted up to the limit, an EOF-ACK, metadata due exactly for a request (0, 0), data due exactly for a request that is in the file; nothing else changes any of these |
| TxReports.NewDataStatus | fsw/src/cf_cfdp_s.c:176-195 | One call that sends new data: without a buffer nothing happens and nothing is wrong; else one PDU goes out and the offset moves on, or it is a read failure |
| TxReports.RequestStatus | fsw/src/cf_cfdp_s.c:1004-1028 | One call that serves requests: no failure is an error, what is not sent stays listed, and the pending flag falls exactly with the list empty |
| TxReports.OnePacket | fsw/src/cf_cfdp_s.c:954-996 | What is due goes out one packet a wakeup, metadata before the EOF and that before an ACK, an ACK in class 2 only; without a buffer all stays due |
| TxReports.CancelNoted | fsw/src/cf_cfdp.c:2258-2266 | A cancel makes a clean sender fail with CANCEL_REQUEST_RECEIVED, and leaves one that has failed as it is |
| TxReports.RunCloses | fsw/src/cf_cfdp.c:2038-2088 | Every run of a sender: in holdover it has no file open |
| TxReports.FinAcks | fsw/src/cf_cfdp.c:541-602 | Every run from the first FIN on: each ACK sent names the FIN and its condition code, says active in S2 and terminated in holdover, and the mode in its header says the same |
| TxReports.FinAnswered | fsw/src/cf_cfdp_s.c:954-996 | A FIN not answered yet is answered, and counted as such, in the next wakeup with a buffer and neither metadata nor EOF due, after the EOF and in holdover alike |
| TxReports.ClosureIff | fsw/src/cf_cfdp_s.c:688-710 | A clean class 1 sender whose EOF is out ends its wait in the next wakeup if and only if no closure was requested or the FIN is there |
| TxReports.ClosureNeverAsked | fsw/src/cf_cfdp.c:381-427 | Every run of a sender: no metadata ever request closure, as nothing sets the flag they copy |
| TxReports.ErrorEnds | fsw/src/cf_cfdp_s.c:824-878 | From an error on, whatever it is, a sender is held over after exactly as many wakeups as sub-states are left, at most three |
| TxReports.NoTimeoutWhileSending | fsw/src/cf_cfdp_s.c:893-910 | While file data are still to be sent the inactivity timer stands still |
| TxReports.HoldLasts | fsw/src/cf_cfdp_s.c:886-946 | A sender held over after its EOF is recycled in the wakeup after its timer has run down, and in no earlier one |
| TxReports.ActiveRecycled | fsw/src/cf_cfdp_s.c:886-946 | An active sender is recycled in a wakeup if and only if that wakeup holds it over and the inactivity timer has fired |
| TxReports.NeverRecycled | fsw/src/cf_cfdp_s.c:893-910 | A sender held over before its EOF stays so for ever, over every run: its timer stands still |
| TxReports.AbandonForgets | fsw/src/cf_cfdp.c:2038-2088 | Such a one is every sender abandoned while it has data to send |
| RxReports.FinReports | fsw/src/cf_cfdp.c:610-654 | Each FIN of every run of a new receiving transaction names its status; with a temporary file it says COMPLETE if and only if some wakeup found the file complete, for which metadata, EOF and every byte came in or were in the list, else INCOMPLETE; RETAINED if and only if some wakeup moved the file, else DISCARDED, by the filestore exactly if that is the status. Without a temporary file the codes 2 and 4 come out as 0 and 0, beside an error |
| RxReports.FileFate | fsw/src/cf_cfdp_r.c:687-817 | What the wakeup in FILESTORE does, in all cases: status, codes, the file under its final name, and whether a FIN falls due: in class 2, and in class 1 if and only if the metadata asked for closure |
| RxReports.RunFinds | fsw/src/cf_cfdp_r.c:78-101 | Every run: the file counts as complete if and only if some wakeup found a clean transaction in DATA_EOF, no NAK due, metadata and EOF in and every byte in the list |
| RxReports.StoppedBefore | fsw/src/cf_cfdp_r.c:875-910 | An error before that wakeup rules it out, in every run, whatever has arrived |
| RxReports.CancelledComplete | fsw/src/cf_cfdp_r.c:687-740 | Concrete run: a file nothing is missing of, cancelled before that wakeup, is reported INCOMPLETE |
| RxReports.SetupAccounts | fsw/src/cf_cfdp.c:1112-1147 | A new receiving transaction is active if and only if there is a chunk list and no error left in its history entry, of the class of its first PDU, and in error from the start without a temporary file |
| RxAnswers.FinAckEnds | fsw/src/cf_cfdp_r.c:557-596 | An R2 transaction in FINACK whose FIN is out and that gets a FIN-ACK: in every run from there it sends no further FIN, and any wakeup finds or makes it held over |
| RxAnswers.HeldOverIff | fsw/src/cf_cfdp_r.c:965-994 | Every run of a new receiving transaction: while its FIN is out, before the retry limit and the inactivity timeout, the next wakeup holds it over if and only if a FIN-ACK has arrived |
| RxAnswers.ClosureIff | fsw/src/cf_cfdp_r.c:939-958 | A class 1 transaction sends its FIN in the wakeup that disposes of the file, given a buffer, if and only if closure was requested, and is else held over |
| RxAnswers.ClosureHolds | fsw/src/cf_cfdp_r.c:965-994 | With its FIN out, the next wakeup holds it over |
| RxAnswers.StepHears | fsw/src/cf_cfdp_r.c:184-228 | What each step notes: closure, size and presence of the metadata (only with names that fit), EOFs counted up to the limit, a FIN-ACK once the file is disposed of; nothing else changes any of these |
| RxAnswers.FirstEofNoted | fsw/src/cf_cfdp_r.c:184-228 | The first EOF taken, in holdover too, leaves its fields, and its code as the status of a clean transaction |
| RxAnswers.DataStatus | fsw/src/cf_cfdp_r.c:109-176 | File data taken by a clean transaction: a failed seek is a size error, a short write or a closed file a filestore error, both remembering nothing; else the bytes are written where they belong, the range is remembered and the NAK count starts anew |
| RxAnswers.LaterEofNoted | fsw/src/cf_cfdp_r.c:184-228 | A later EOF changes no field; above the limit it is an error |
| RxAnswers.ValidateStatus | fsw/src/cf_cfdp_r.c:436-477 | The wakeup that finds the file complete: a size error if the size is not that of the EOF or the file cannot be read from the start, else no error |
| RxAnswers.ReadStatus | fsw/src/cf_cfdp_r.c:485-549 | While the checksum is computed the only errors are a timeout and, as a size error, a read that fails |
| RxAnswers.CancelNoted | fsw/src/cf_cfdp.c:2258-2266 | The same for a receiver, whose files a cancel leaves alone |
| RxAnswers.RunCloses | fsw/src/cf_cfdp.c:2038-2088 | Every run of a new receiving transaction: in holdover the temporary file is closed |
| RxAnswers.EofAcks | fsw/src/cf_cfdp.c:541-602 | Every run from the first EOF on: each ACK sent names the EOF and its condition code, not an own error, says active in R2 and terminated in holdover, and the mode in its header says the same |
| RxAnswers.EofAnswered | fsw/src/cf_cfdp_r.c:1083-1121 | An EOF not answered yet is answered in the next wakeup with a buffer, in every sub-state and in holdover |
| RxAnswers.TrafficPutsOffNak | fsw/src/cf_cfdp_r.c:643-680 | Every PDU of an R2 transaction whose ack timer runs puts off the next NAK by one full ack timer, and those after it by the same |
| RxAnswers.ErrorEnds | fsw/src/cf_cfdp_r.c:850-958 | From an error on, whatever it is, the file is disposed of after exactly as many wakeups as sub-states are left, at most three |
| RxAnswers.HoldLasts | fsw/src/cf_cfdp_r.c:1129-1188 | A receiver held over is recycled in the wakeup after its timer has run down, and in no earlier one |
| RxAnswers.ActiveRecycled | fsw/src/cf_cfdp_r.c:1129-1188 | An active receiver is recycled in a wakeup if and only if that wakeup holds it over and the inactivity timer has fired |
| RxRetries.NakRepeats | fsw/src/cf_cfdp_r.c:875-910 | With nothing arriving a class 2 receiver that lacks data asks exactly as often as the limit allows, at wakeups exactly one ack timer apart, and gives up with NAK_LIMIT_REACHED exactly one after the last |
| RxRetries.FinRepeats | fsw/src/cf_cfdp_r.c:965-994 | Without a FIN-ACK the same FIN goes out exactly as often as the limit allows, at wakeups exactly one ack timer apart, and one after the last the transaction is held over |
| TxRetries.EofRepeats | fsw/src/cf_cfdp_s.c:717-765 | With nothing arriving a waiting class 2 sender repeats its EOF exactly as often as the limit allows, at wakeups exactly one ack timer apart, and gives up exactly one after the last |
| TxRetries.FirstEof | fsw/src/cf_cfdp_s.c:824-878 | From the wakeup that finds all data sent: exactly one EOF and ack_limit repetitions, then NAK_LIMIT_REACHED |
| NakRepair.AnsweredGapGrows | fsw/src/cf_cfdp_r.c:265-289 | If all bytes of one gap arrive, in any pieces, order and company, the receiver remembers strictly more bytes, even if the full list evicts, as long as the list has a free slot or an entry that does not begin behind the file |
| NakRepair.AnsweredGapGrowsIff | fsw/src/cf_chunk.c:238-274 | And in general only then: a list full of entries behind the file drops a whole file that comes in small pieces |
| NakRepair.NakSilentIff | fsw/src/cf_cfdp_r.c:297-379 | A wakeup that should ask for data finds nothing to ask for if and only if the file is complete or the list has room for one entry and that one starts the file |
| NakRepair.NakGapsAreGaps | fsw/src/cf_cfdp_r.c:297-379 | The requests are the maximal missing intervals of the file, in order; the last gap of the file, and no other, may be named beyond its end, exactly when it overhangs |
| Refusals.RefusedIff | fsw/src/cf_cfdp_s.c:287-318 | The sender refuses a request if and only if it is for that last gap and the gap overhangs the file |
| Refusals.SomeRefusedIff | fsw/src/cf_cfdp_s.c:287-318 | A NAK holds a refused request if and only if the overhanging gap is among those it has room for |
| Refusals.RefusedExample | fsw/src/cf_cfdp_s.c:287-318 | Concrete list, left by a longer file: all that is asked for is refused |
| Refusals.NeverAnswered | fsw/src/cf_cfdp_r.c:875-910 | While only that gap is open, no number of rounds on a perfect link changes anything at either end |
| Refusals.RefusedUntilLimit | fsw/src/cf_cfdp_r.c:875-910 | The receiver then asks exactly as often as the limit allows, with NAKs that leave the sender as it is, and ends with NAK_LIMIT_REACHED |
| NakRepair.LoadGaps | fsw/src/cf_cfdp_s.c:265-340 | Loading such requests into the sender's list: whatever is dropped for lack of room, every entry is one of the whole gaps and the list is not empty |
| NakRepair.TickNakFacts | fsw/src/cf_cfdp_s.c:1004-1028 | One wakeup sends a block off the front of the list and takes just that block off, or sends nothing and changes nothing in the list |
| NakRepair.ServeTiles | fsw/src/cf_cfdp_s.c:1004-1028 | Any number of wakeups, failing ones included: the blocks sent ascend without overlap, and every requested byte is in one of them or still listed, never both |
| NakRepair.ServeFinishes | fsw/src/cf_cfdp_s.c:1004-1028 | When nothing fails, more wakeups than bytes requested empty the list and clear the pending flag |
| NakRepair.ServeFinishesIff | fsw/src/cf_cfdp_s.c:1004-1028 | That many wakeups empty the list if and only if no entry reaches behind the end of the file |
| Refusals.BlockedStays | fsw/src/cf_cfdp_s.c:1004-1028 | While the next block of the first entry reaches behind the end of the file nothing is sent, in any number of wakeups, whatever the reads do: that entry and all behind it stay |
| Refusals.BlockedIff | fsw/src/cf_cfdp_s.c:1004-1028 | A wakeup in which nothing fails sends nothing if and only if that is so |
| Refusals.JoinedExample | fsw/src/cf_cfdp_s.c:287-318 | Concrete run: a request for the end of the file joins an entry left behind it, and its bytes are never sent |
| NakRepair.RepairRound | fsw/src/cf_cfdp_s.c:265-340 | One round from the receiver's list over NAK, sender's list, with whatever it held, and blocks back: if the bytes of one gap that was listed arrive, the receiver remembers strictly more; a sender without other requests lists whole gaps, and some |
| NakRepair.RepairTerminates | fsw/src/cf_cfdp_r.c:875-910 | The number of rounds that answer some gap is at most the number of missing bytes up to any bound on the entries and the file, as long as the list has room |
| ChunkSpec.AddKeepsInvariant | fsw/src/cf_chunk.c:238-293 | Every add keeps the list sorted, never touching, within capacity and 32 bits; bytes are lost if and only if the list is full and no entry touches the range, and then the first smallest entry is evicted only for a larger range |
| ChunkSpec.AddNeverLosesGround | fsw/src/cf_chunk.c:238-293 | An add leaves the list as it was or makes the number of remembered bytes strictly larger |
| ChunkSpec.RunRefinesSet | fsw/src/cf_chunk.c:282-293 | After any run of adds the list remembers a subset of what was added, exactly it while no add was dropped or evicted, and never fewer bytes than before |
| ChunkSpec.RemoveFromFirstFacts | fsw/src/cf_chunk.c:301-319 | Exactly the first bytes of the first entry are forgotten |
| ChunkSpec.MergeOfCoveredIsIdentity | fsw/src/cf_chunk.c:135-208 | Adding a range that is remembered already changes nothing |
| Gaps.AllGapsExact | fsw/src/cf_chunk.c:364-435 | The defining list holds exactly the maximal missing intervals |
| Gaps.ReportedClipsToGaps | fsw/src/cf_chunk.c:364-435 | Cut at both ends of the scope, the reported gaps are the first max_gaps maximal missing intervals, for every scope |
| Gaps.ReportsIffMissing | fsw/src/cf_chunk.c:364-435 | With max_gaps at least 1 nothing is reported if and only if nothing is missing |
| Gaps.ReportedExactIff | fsw/src/cf_chunk.c:364-435 | No cutting is needed if and only if no reported gap ends behind the scope and an empty list is asked from offset 0 |
| Gaps.OverhangExample | fsw/src/cf_chunk.c:394-420 | Concrete list for which a reported gap ends behind the scope |
| Crc.SplitIndependence | fsw/src/cf_crc.c:53-70 | Any partition of a stream into digests, empty ones included, leaves the same register |
| Crc.StreamingComputesChecksum | fsw/src/cf_crc.c:42-90 | For every stream and partition the finalized result is the sum modulo 2^32 of the big-endian words of the zero-padded stream; stale bytes never reach it |
| Crc.ResumeAfterFinalize | fsw/src/cf_crc.c:53-90 | Finalizing is idempotent; resuming after it adds the checksum of the new data to that of the padded old data |
| Crc.PermutationInvariance | fsw/src/cf_crc.c:53-90 | The order of word-aligned blocks does not matter |
| Cfdp.CheckAckNakCount | fsw/src/cf_cfdp.c:194-230 | Counts up while below the limit and says whether it did |
| Cfdp.RetriesAllowed | fsw/src/cf_cfdp.c:194-230 | Retries in a row are all allowed if and only if they stay within the limit |
| Cfdp.ConditionCodeFaithful | fsw/src/cf_utils.c:600-656 | A status that is a condition code of the protocol (0 to 11, 14, 15) is sent as it is, and only such a one; both ack limits as inactivity, a status undefined as no error, every other one as a cancel request; an error exactly if the status is one |
| Codec.FailureSticks | fsw/src/cf_codec.c:268-318 | Nothing is written to or read from a failed state |
| Codec.IntRoundTrip | fsw/src/cf_codec.c:345-362 | An integer survives encoding in n octets if and only if it is below 256^n |
| Codec.GetValueEncodedSize | fsw/src/cf_codec.c:326-337 | The least number of octets, at most eight, that holds the value |
| Codec.LvEmits | fsw/src/cf_codec.c:456-478 | An LV is written as length and data if and only if both fit |
| Codec.LvDecodes | fsw/src/cf_codec.c:835-845 | Decoding an LV returns its data and consumes exactly its octets |
| Codec.TlvSurvives | fsw/src/cf_codec.c:486-516 | A TLV survives if and only if its entity ID fits the length given |
| Codec.TlvsDecode | fsw/src/cf_codec.c:1087-1114 | Decoding a list of TLVs that ends the PDU returns as many, each cut to its length, and consumes exactly their octets |
| Codec.SegsDecode | fsw/src/cf_codec.c:1122-1149 | Decoding a list of segment requests that ends the PDU returns it and consumes exactly its octets |
| Codec.EofRoundTrip | fsw/src/cf_codec.c:635-649 | Encoding succeeds if and only if the PDU fits; decoding consumes exactly the octets written and returns the same EOF if and only if condition code and entity IDs are in range |
| Codec.FinRoundTrip | fsw/src/cf_codec.c:657-671 | The same for a FIN; a delivery code of 2 comes back as 0, COMPLETE |
| Codec.AckRoundTrip | fsw/src/cf_codec.c:679-694 | The same for an ACK |
| Codec.NakRoundTrip | fsw/src/cf_codec.c:702-714 | The same for a NAK with at most 58 requests, whatever they are |
| Codec.MdRoundTrip | fsw/src/cf_codec.c:574-590 | The same for metadata |
| Codec.FdRoundTrip | fsw/src/cf_codec.c:598-627 | The same for file data without segment metadata |
| Codec.FinalSizeChangesOnly | fsw/src/cf_codec.c:408-430 | Fixing the size changes only octets 1 and 2, to the length modulo 2^16, and closes the state |
| Codec.HeaderRoundTrip | fsw/src/cf_codec.c:370-430 | A header in front of any body, size fixed last: decoded as it was, with the body found where it begins, if and only if every field is in its range |
| Wire.PacketSurvivesIff | fsw/src/cf_cfdp.c:691-979 | A whole packet, header, directive octet and body: from the octets alone the other end reads the transaction, the mode, the kind of PDU and the PDU with its fields cut to their bits, so the same packet if and only if the fields fit |
| Wire.HeaderSays | fsw/src/cf_cfdp.c:307-373 | The octets of every packet: version 1, kind, direction and mode in the first, the length of all that follows the header in the next two, both identifier lengths in the fourth, and the directive code behind the identifiers |
| Wire.CodesSay | fsw/src/cf_cfdp.c:541-654 | Behind it the codes: of an ACK the directive it is for, subtype 1 exactly for a FIN, condition code and status; of a FIN and an EOF theirs |
| Wire.FieldsSay | fsw/src/cf_codec.c:574-714 | And the rest: source, sequence number and destination in the header; sizes, checksums, offsets, requests, names and data where the standard puts them, most significant octet first |
| Wire.ChecksumCut | fsw/src/cf_cfdp.c:841-880 | File data of a peer that adds a checksum lose its four octets and nothing else; too short for one, or with segment metadata, they are not taken |
| LinkRuns.EveryPacketSurvives | fsw/src/cf_cfdp.c:691-979 | Over every run of both ends, whatever the reads deliver, each packet on the link is read from its octets as it was sent |
| CList.Traverse | fsw/src/cf_clist.c:188-219 | Visits each node up to the first exit once and in order, even if callbacks take the visited nodes off the list, and leaves exactly the others |
| Queues.RunKeeps | fsw/src/cf_utils.h:122-159 | Over any run of queue operations: each queued transaction is in one queue only, every counter is the length of its list, and the counters move by what was put in and taken out |
| Queues.IndexNeverSaysFree | fsw/src/cf_utils.c:189-195 | Over every run of queue operations the queue index of a queued transaction names its queue if and only if that is not the free queue; it never says free |
| Queues.PrioPlace | fsw/src/cf_utils.c:423-457 | The queue with the new entry in it is the old one cut in two with the entry between: behind an entry of no greater priority value and in front of greater ones only, or, if there are only greater ones, at the back |
| Queues.FirstComeFirst | fsw/src/cf_utils.c:423-457 | Every run of queue operations: the transactions of one priority stand in a queue in the order they came to it, whoever leaves in between |
| Queues.ServedInOrder | fsw/src/cf_cfdp.c:1392-1408 | If the first of a queue is always the one taken, those of one priority that waited and came, in that order, are those that left and still wait |
| Queues.FreeInOrder | fsw/src/cf_utils.c:127-195 | Every run: the free transactions are taken in the order they were freed |
| Queues.PrioPlacement | fsw/src/cf_utils.c:423-457 | A sorted queue stays sorted if and only if it was empty or its first entry is no greater than the new one |
| Ticks.ResumedPass | fsw/src/cf_cfdp.c:1416-1459 | A resumed pass ticks exactly the transactions that are not suspended from the resume point through the first that blocks |
| Ticks.PassesCover | fsw/src/cf_cfdp.c:1416-1459 | Consecutive blocked passes over an unchanged queue cover it in order, leave nobody out and overlap only at the one that blocked |
| Ticks.LostResumePoint | fsw/src/cf_cfdp.c:1423-1438 | If the transaction at the resume point has left the queues, a whole wakeup ticks nobody |
| Dispatch.TablesInRange | fsw/src/cf_cfdp_dispatch.c:40-157 | No table has a handler beyond its last index |
| Dispatch.RxDispatchAgrees | fsw/src/cf_cfdp_dispatch.c:40-94 | The dispatch that counts steps the transaction as the state machine does |
| Dispatch.OneHandler | fsw/src/cf_cfdp_dispatch.c:40-94 | At most one handler of a receiver runs; the transaction is as that handler, or no handler, leaves it, but for the ack timer; at most one counter moves; a PDU of the other mode changes nothing |
| Dispatch.OneHandlerTx | fsw/src/cf_cfdp_dispatch.c:102-157 | The same for a sender |
| Dispatch.EveryPduCounts | fsw/src/cf_cfdp_dispatch.c:40-94 | Over every run at an active receiver each PDU is exactly one of handled, spurious, dropped or ignored, and as many are handled as handlers ran |
| Dispatch.CountersExact | fsw/src/cf_cfdp_dispatch.c:40-94 | Over every such run: spurious are exactly the directives beyond the tables; after the first error dropped are exactly the PDUs of the other mode and all file data, for which no handler runs |
| Dispatch.HoldCounts | fsw/src/cf_cfdp.c:998-1035 | Over every run in holdover: all PDUs of the right mode are spurious, those of the other dropped, and only EOFs are handled besides |
| Dispatch.HoldoverRepliesDropped | fsw/src/cf_cfdp.c:140-144 | What a sender sends is dropped by a class 2 receiver if and only if the sender is no longer in S2, its repeated FIN-ACK included |
| Dispatch.HoldoverAckOfEofDropped | fsw/src/cf_cfdp.c:998-1035 | What a receiver sends is dropped by a class 2 sender if and only if the receiver is no longer in R2 |
| Dispatch.NakOnlyInClass2 | fsw/src/cf_cfdp.c:662-683 | Over every run of a receiver that is not abandoned, no NAK is sent outside class 2, so the assertion holds |
| Dispatch.AbandonedNakIff | fsw/src/cf_cfdp.c:662-683 | A transaction abandoned after any such run breaks that assertion in its next wakeup if and only if there is a buffer and a request with something to name is due |
| Dispatch.AbandonedNakRun | fsw/src/cf_cfdp.c:662-683 | Such a run: an EOF without metadata, one wakeup, and the abandon |
| Dispatch.MetadataInHoldoverIff | fsw/src/cf_cfdp.c:381-427 | A wakeup breaks the assertion of an active sender if and only if there is a buffer and metadata is still due in FILESTORE or holdover |
| Dispatch.MetadataInHoldoverRun | fsw/src/cf_cfdp.c:381-427 | Such a run, without any command: an early FIN, two wakeups without a buffer, one with a buffer |
| History.StaleStatusIff | fsw/src/cf_cfdp.c:1112-1147 | Over every run of a channel: a new receiving transaction becomes active, and a new sending one that finds its file is put to work, if and only if no transaction that held its history entry before has failed |
| History.PoisonStays | fsw/src/cf_cfdp.c:2156-2162 | An error in a history entry stays for good, over every run |
| History.FailuresSpoil | fsw/src/cf_utils.c:127-169 | As many failing transactions one after the other as there are entries, with the histories kept or not, leave every entry with an error; fewer spoil exactly as many |
| History.NothingStartsAfter | fsw/src/cf_cfdp.c:1077-1147 | From then on no transaction ever becomes active again, whatever else happens |
| History.RunValid | fsw/src/cf_cfdp.c:2096-2148 | Over every run each history entry is held by one transaction or in one of two queues, once, and none is lost |
| History.EntriesSufficeIff | fsw/src/cf_utils.c:149-151 | The assertion that a free transaction finds a history entry holds over every run if and only if there are as many entries as transactions |
| ChunkLists.ChunkList.Reset | fsw/src/cf_chunk.c:352-356 | Empties the list and zeroes every entry |
| ChunkLists.ChunkList.EraseRange | fsw/src/cf_chunk.c:45-55 | The entries of the range are gone, the others shifted in place |
| ChunkLists.ChunkList.EraseChunk | fsw/src/cf_chunk.c:63-73 | One entry is gone, the others shifted in place |
| ChunkLists.ChunkList.InsertChunk | fsw/src/cf_chunk.c:81-95 | One entry put in front of a position, the others shifted in place |
| ChunkLists.ChunkList.FindInsertPosition | fsw/src/cf_chunk.c:103-127 | The binary search returns the first entry at or above the offset |
| ChunkLists.ChunkList.CombinePrevious | fsw/src/cf_chunk.c:135-164 | Stretches the previous entry over the range, if and only if they touch |
| ChunkLists.ChunkList.CombineNext | fsw/src/cf_chunk.c:172-208 | One entry in place of all following ones the range touches, if there are any |
| ChunkLists.ChunkList.FindSmallestSize | fsw/src/cf_chunk.c:216-230 | Index of the first entry that no other undercuts |
| ChunkLists.ChunkList.Insert | fsw/src/cf_chunk.c:238-274 | Merged with all entries the range touches, else inserted, else put in place of the first smallest entry if that is smaller, else dropped; the list stays well-formed |
| ChunkLists.ChunkList.ListAdd | fsw/src/cf_chunk.c:282-293 | The same for the position the search finds; the list stays well-formed |
| ChunkLists.ChunkList.RemoveFirst | fsw/src/cf_chunk.c:301-319 | The first entry shortened from its front, or gone if nothing is left of it |
| ChunkLists.ChunkList.GetFirstChunk | fsw/src/cf_chunk.c:327-330 | The first entry, if there is one |
| ChunkLists.ChunkList.ComputeGaps | fsw/src/cf_chunk.c:364-435 | The gaps handed to the callback, in order: the one in front of the first entry and those behind the entries, until the limit or the end of the scope |
| Crc.Register.Start | fsw/src/cf_crc.c:42-45 | The register is zeroed |
| Crc.Register.DigestAll | fsw/src/cf_crc.c:53-70 | Byte after byte shifted in, a whole word added to the result after every fourth |
| Crc.Register.FinalizeResult | fsw/src/cf_crc.c:78-90 | An incomplete word is shifted up and added; a complete one changes nothing |
| RxTransactions.RxTransaction.ProcessFileData | fsw/src/cf_cfdp_r.c:109-176 | Seek only if the cached position differs; a failed seek and a short write are different errors; only a whole write is remembered in the chunk list |
| RxTransactions.RxTransaction.SubstateRecvFileData | fsw/src/cf_cfdp_r.c:236-257 | The whole state after file data, on every outcome of seek and write |
| RxTransactions.RxTransaction.SubstateRecvEof | fsw/src/cf_cfdp_r.c:184-228 | The whole state after an EOF, first or repeated |
| RxTransactions.RxTransaction.SubstateRecvMd | fsw/src/cf_cfdp_r.c:604-616 | The whole state after metadata, first or repeated, names too long included |
| RxTransactions.RxTransaction.SubstateRecvFinAck | fsw/src/cf_cfdp_r.c:557-596 | The whole state after an ACK |
| RxTransactions.RxTransaction.SubstateDispatch | fsw/src/cf_cfdp_dispatch.c:40-94 | Runs the handler of the sub-state's table, or none |
| RxTransactions.RxTransaction.DispatchRecv | fsw/src/cf_cfdp_dispatch.c:165-189 | The whole state after any PDU in any state |
| RxTransactions.RxTransaction.SetupRxTransaction | fsw/src/cf_cfdp.c:1112-1147 | The state of a new transaction with the list it is handed, entries and all, without list or temporary file as well |
| RxTransactions.RxTransaction.InitReceiver | fsw/src/cf_cfdp_r.c:387-428 | The state after creating the temporary file, or the error |
| RxTransactions.RxTransaction.StartCrc | fsw/src/cf_cfdp_r.c:436-477 | The state after starting the checksum, or the error |
| RxTransactions.RxTransaction.DigestBlocks | fsw/src/cf_cfdp_r.c:485-549 | The read loop stops at the rate, the end of the file or the first failing read; register and both positions follow the blocks read |
| RxTransactions.RxTransaction.CalcChecksumChunk | fsw/src/cf_cfdp_r.c:485-549 | A failed read is a file size error, the end of the file finalizes the checksum, else the computation goes on next time |
| RxTransactions.RxTransaction.FileRetention | fsw/src/cf_cfdp_r.c:687-817 | File closed; without temporary file, incomplete, with error or wrong checksum it is discarded with the matching status and report, else moved and reported RETAINED |
| RxTransactions.RxTransaction.IsFileComplete | fsw/src/cf_cfdp_r.c:78-101 | Decides the specified completeness |
| RxTransactions.RxTransaction.CheckStateDataNormal | fsw/src/cf_cfdp_r.c:850-868 | An EOF leads to DATA_EOF, an error without one to FILESTORE; nothing else changes |
| RxTransactions.RxTransaction.CheckStateDataEof | fsw/src/cf_cfdp_r.c:875-910 | Error or retry limit lead to FILESTORE, completeness to VALIDATE, else a class 2 receiver without a running timer owes one more NAK; nothing else changes |
| RxTransactions.RxTransaction.CheckStateValidate | fsw/src/cf_cfdp_r.c:917-932 | FILESTORE on error or at the end of the file, else one more stretch of the checksum |
| RxTransactions.RxTransaction.CheckStateFileStore | fsw/src/cf_cfdp_r.c:939-958 | The file is disposed of; FINACK follows in class 2 or on request, else COMPLETE |
| RxTransactions.RxTransaction.CheckStateFinAck | fsw/src/cf_cfdp_r.c:965-994 | While a FIN is due nothing happens; then FIN-ACK, class 1, inactivity or the retry limit complete it, else one more FIN falls due |
| RxTransactions.RxTransaction.EnterState | fsw/src/cf_cfdp_r.c:1046-1074 | The one-time work on entering a sub-state |
| RxTransactions.RxTransaction.StateCheck | fsw/src/cf_cfdp_r.c:1002-1075 | The whole state after a state check |
| RxTransactions.RxTransaction.GapsToSegments | fsw/src/cf_cfdp_r.c:265-289 | One request per gap until the PDU is full |
| RxTransactions.RxTransaction.TrySendNak | fsw/src/cf_cfdp_r.c:297-379 | Asks for the metadata or for as many gaps as the PDU holds and arms the timer; without a gap nothing is sent, and the request is settled in every case |
| RxTransactions.RxTransaction.TrySendFin | fsw/src/cf_cfdp.c:610-654 | One FIN with the condition code, delivery code and file status cut to their bits; class 2 arms the timer |
| RxTransactions.RxTransaction.TickMaintenance | fsw/src/cf_cfdp_r.c:1083-1121 | At most one packet, an EOF-ACK before a NAK before a FIN, and none without a buffer |
| RxTransactions.RxTransaction.TickTransaction | fsw/src/cf_cfdp_r.c:1129-1188 | Inactivity, then in an active transaction the ack timer and one state check, then maintenance; recycled exactly in holdover with the inactivity timer fired |
| TxTransactions.TxTransaction.OpenSource | fsw/src/cf_cfdp_s.c:440-540 | The state after the checks and calls on the source file, on every outcome |
| TxTransactions.TxTransaction.SetupTxTransaction | fsw/src/cf_cfdp.c:1077-1104 | The state of a transaction put to work with the list it is handed, entries and all, or of one to be recycled |
| TxTransactions.TxTransaction.ReadAndSendData | fsw/src/cf_cfdp_s.c:128-165 | State, result and packet of reading and sending one block |
| TxTransactions.TxTransaction.SendData | fsw/src/cf_cfdp_s.c:49-168 | One block no longer than room, request and chunk size, or no buffer, or a failure that may have moved the file position, on every outcome of buffer, seek and read |
| TxTransactions.TxTransaction.SubstateSendFileData | fsw/src/cf_cfdp_s.c:176-195 | New file data sent, or an error; no buffer is no error |
| TxTransactions.TxTransaction.ServeRequest | fsw/src/cf_cfdp_s.c:1004-1028 | State and packet of serving one request |
| TxTransactions.TxTransaction.SubstateRecvFin | fsw/src/cf_cfdp_s.c:227-257 | The whole state after a FIN, first or repeated |
| TxTransactions.TxTransaction.SubstateEarlyFin | fsw/src/cf_cfdp_s.c:203-219 | The whole state after a FIN before the EOF |
| TxTransactions.TxTransaction.SubstateEofAck | fsw/src/cf_cfdp_s.c:348-380 | The whole state after an ACK |
| TxTransactions.TxTransaction.TakeSegment | fsw/src/cf_cfdp_s.c:287-318 | One request: metadata, bad range, or a range for the list |
| TxTransactions.TxTransaction.SubstateNak | fsw/src/cf_cfdp_s.c:265-340 | The whole state after the loop over all requests |
| TxTransactions.TxTransaction.SubstateDispatch | fsw/src/cf_cfdp_dispatch.c:102-157 | Runs the handler of the sub-state's table, or none |
| TxTransactions.TxTransaction.DispatchRecv | fsw/src/cf_cfdp_dispatch.c:165-189 | The whole state after any PDU in any state |
| TxTransactions.TxTransaction.FileRetention | fsw/src/cf_cfdp_s.c:548-630 | After a failure the source stays or goes to the fail directory; after a success it is moved or deleted only if not to be kept and, in class 2, reported COMPLETE and RETAINED, and stays if the call fails |
| TxTransactions.TxTransaction.CheckStateDataNormal | fsw/src/cf_cfdp_s.c:663-681 | All data sent leads to DATA_EOF, else an error or a FIN to FILESTORE; nothing else changes |
| TxTransactions.TxTransaction.CheckStateDataEof1 | fsw/src/cf_cfdp_s.c:688-710 | Complete at once if no closure was requested, else when a FIN is there |
| TxTransactions.TxTransaction.CheckStateDataEof2 | fsw/src/cf_cfdp_s.c:717-765 | Complete with EOF-ACK and answered FIN; a FIN alone ends it incomplete; without either the EOF is repeated up to the limit |
| TxTransactions.TxTransaction.EnterState | fsw/src/cf_cfdp_s.c:855-877 | The one-time work on entering a sub-state |
| TxTransactions.TxTransaction.StateCheck | fsw/src/cf_cfdp_s.c:824-878 | The whole state after a state check |
| TxTransactions.TxTransaction.TickMaintenance | fsw/src/cf_cfdp_s.c:954-996 | At most one packet, metadata before EOF before FIN-ACK, and none without a buffer |
| TxTransactions.TxTransaction.TickTransaction | fsw/src/cf_cfdp_s.c:886-946 | Inactivity after the EOF only, then in an active transaction the ack timer and one state check, then maintenance; recycled exactly in holdover with the timer fired |
| CodecBuffers.Encoder.CheckSize | fsw/src/cf_codec.c:268-282 | The position moves if there is room, else the state fails |
| CodecBuffers.Encoder.PutChunk | fsw/src/cf_codec.c:290-300 | A chunk written in place at the position, the rest of the buffer untouched |
| CodecBuffers.Encoder.StoreInteger | fsw/src/cf_codec.c:345-362 | The loop writes the integer, most significant octet first |
| CodecBuffers.Encoder.EncodeIntegerInSize | fsw/src/cf_codec.c:345-362 | The integer in network order if it fits in the buffer, else the state fails and the buffer stays |
| CodecBuffers.Encoder.EncodeLvItem | fsw/src/cf_codec.c:456-478 | Length and data in place at the position; a failure sticks |
| CodecBuffers.Encoder.EncodeTlvItem | fsw/src/cf_codec.c:486-516 | Type, length and value in place at the position, an entity ID in the length given |
| CodecBuffers.Encoder.EncodeAllTlv | fsw/src/cf_codec.c:542-550 | The items one after the other, stopping at the first that does not fit |
| CodecBuffers.Encoder.EncodeAllSegments | fsw/src/cf_codec.c:558-566 | Eight octets a request, stopping at the first that does not fit |
| CodecBuffers.Encoder.EncodeMdPdu | fsw/src/cf_codec.c:574-590 | Flags, size and both names in place at the position |
| CodecBuffers.Encoder.EncodeEofPdu | fsw/src/cf_codec.c:635-649 | Condition code, checksum, size and the list in place at the position |
| CodecBuffers.Encoder.EncodeFinPdu | fsw/src/cf_codec.c:657-671 | The three fields in one octet and the list in place at the position |
| CodecBuffers.Encoder.EncodeAckPdu | fsw/src/cf_codec.c:679-694 | The four fields in two octets in place at the position |
| CodecBuffers.Encoder.EncodeNakPdu | fsw/src/cf_codec.c:702-714 | Scope and requests in place at the position |
| CodecBuffers.Encoder.EncodeFileData | fsw/src/cf_codec.c:598-627 | Offset and data in place at the position |
| CodecBuffers.Encoder.EncodeHeaderWithoutSize | fsw/src/cf_codec.c:370-400 | Flags, lengths and identifiers in place at the position; the two size octets are left alone |
| CodecBuffers.Encoder.EncodeHeaderFinalSize | fsw/src/cf_codec.c:408-430 | The two size octets at the front of the buffer, if a header is there, and the state closed |
| CodecBuffers.Decoder.TakeChunk | fsw/src/cf_codec.c:308-318 | The octets at the position, or failure |
| CodecBuffers.Decoder.DecodeIntegerInSize | fsw/src/cf_codec.c:739-759 | The octets as an integer in 64 bits, 0 if there are too few |
| CodecBuffers.Decoder.DecodeLvItem | fsw/src/cf_codec.c:835-845 | As many octets as the length says, or failure |
| CodecBuffers.Decoder.DecodeTlvItem | fsw/src/cf_codec.c:853-876 | An entity ID cut to 32 bits, or the octets of any other type |
| CodecBuffers.Decoder.DecodeAllTlv | fsw/src/cf_codec.c:1087-1114 | Items up to the end of the PDU or the limit, stopping at the first that is cut off |
| CodecBuffers.Decoder.DecodeSegmentRequest | fsw/src/cf_codec.c:884-894 | Two 32-bit offsets, or failure |
| CodecBuffers.Decoder.DecodeAllSegments | fsw/src/cf_codec.c:1122-1149 | Requests up to the end of the PDU or the limit, stopping at the first that is cut off |
| CodecBuffers.Decoder.DecodePduHeader | fsw/src/cf_codec.c:767-807 | All fields, and an error exactly if a length exceeds what is stored |
| CodecBuffers.Decoder.DecodeFileData | fsw/src/cf_codec.c:925-979 | The offset, and all the octets left as data |
| CodecBuffers.Decoder.DecodeMdPdu | fsw/src/cf_codec.c:902-917 | Flags, size and both names |
| CodecBuffers.Decoder.DecodeEofPdu | fsw/src/cf_codec.c:1004-1017 | Condition code, checksum, size and at most four items |
| CodecBuffers.Decoder.DecodeFinPdu | fsw/src/cf_codec.c:1025-1038 | The three fields and at most four items |
| CodecBuffers.Decoder.DecodeAckPdu | fsw/src/cf_codec.c:1046-1059 | The four fields |
| CodecBuffers.Decoder.DecodeNakPdu | fsw/src/cf_codec.c:1067-1079 | Scope and at most 58 requests |
| History.Channel.FindUnusedTransaction | fsw/src/cf_utils.c:127-169 | The first free transaction with the first free history entry, or the oldest kept one |
| History.Channel.RecycleTransaction | fsw/src/cf_cfdp.c:2131-2147 | The transaction is free again, its entry kept or free |
| History.Channel.ResetHistory | fsw/src/cf_utils.c:177-181 | A kept entry is free again |
| ListPool.Chunks.FindUnusedChunks | fsw/src/cf_cfdp.c:258-278 | The list at the front of the pool, untouched, or none |
| ListPool.Chunks.GiveBack | fsw/src/cf_cfdp.c:2121-2128 | The list at the end of the pool, as its holder left it |
| CList.List.InsertFront | fsw/src/cf_clist.c:52-73 | The node in front, ring relinked both ways |
| CList.List.InsertBack | fsw/src/cf_clist.c:81-103 | The node at the back, ring relinked both ways |
| CList.List.InsertAfter | fsw/src/cf_clist.c:167-180 | The node behind a given one |
| CList.List.Remove | fsw/src/cf_clist.c:132-159 | Exactly that node gone and linked to itself |
| CList.List.Pop | fsw/src/cf_clist.c:111-124 | The first node taken off, or none |
| Queues.Channel.DequeueTransaction | fsw/src/cf_utils.h:122-128 | Taken off the queue its index names, the counter one less; the index stays |
| Queues.Channel.MoveTransaction | fsw/src/cf_utils.h:130-139 | Off the queue its index names, at the back of the other one, both counters and the index with it |
| Queues.Channel.PrioSearch | fsw/src/cf_utils.c:399-415 | The search from the back finds the last entry of no greater priority value |
| Queues.Channel.InsertBackEx | fsw/src/cf_utils.h:155-159 | At the back, the counter one more |
| Queues.Channel.InsertAfterEx | fsw/src/cf_utils.h:148-153 | Behind a given place, the counter one more |
| Queues.Channel.InsertSortPrio | fsw/src/cf_utils.c:423-457 | At its place by priority in the queue, counter and index with it |
| Queues.Channel.FreeTransaction | fsw/src/cf_utils.c:189-195 | At the back of the free queue, with the index wiped |
| Ticks.Channel.CompleteTick | fsw/src/cf_cfdp.c:1449-1459 | The first transaction that finds the channel blocked is recorded |
| Ticks.Channel.TickQueue | fsw/src/cf_cfdp.c:1416-1441 | Nobody before the resume point is ticked, then everybody not suspended until one blocks, which is recorded unless it was recycled |
| Ticks.Channel.TickStateMessages | fsw/src/cf_cfdp.c:1467-1570 | The receiving and the sending queue are ticked as if they were one |
| Dispatch.Counters.Receive | fsw/src/cf_cfdp_dispatch.c:40-94 | Exactly the counter of what happens to the PDU moves, and the transaction takes it |

## Left out

- EndToEnd.DeletedOnlyIfDelivered: assumes that a read that serves a request is not cut short before the end of the file (`ShortReads.ShortReadLosesFile`) and that the receiver's lists remember no byte of it (`StaleLists.StaleListLosesFile`), which are both needed; and, for the data PDUs that are sent, room for at least one byte and a configured chunk size that is not zero. A recycled sender goes on existing in holdover in this model, which only adds runs.
- Delivery.Delivers: data PDUs only are lost in the first pass; the metadata, the EOF and the packets of the rounds after it arrive, buffers and file operations do not fail, the configuration allows retries and has an inactivity timer long enough for a NAK round and the checksum, and no list has an entry that ends behind the file (`Refusals` is about those). From other states, `Delivery.DeliversFrom`.
- RxTermination.EndsByRetryLimit: for class 2 only; a class 1 receiver never asks again, and ends by its inactivity timer (`RxTermination.EndsByInactivity`).
- NakRepair.RepairRound: a receiver's list without entries behind the end of the file; with one, the request that overhangs is refused (`Refusals.RefusedIff`).
- RxReuse.WholeIff: leaves open the list that remembers nothing but the last byte a 32-bit offset can name.
- ListPool.RunValid: the pool of receiving transactions; the one of sending transactions works alike, and `TxRuns.RunRanged` says what they leave in it.
- CList.Traverse: starts at the head of the list, and a callback may take the visited node off the list or ask to stop, but not change the list otherwise.
- Queues.RunKeeps: the queues are sequences here, as the rings of `CList` are shown to be; that a channel's heads are such rings is not proved, and the reverse traversal is modelled only with the priority search and without removals.
- History.RunValid: on sequences and maps likewise; which of the channel's queues a transaction in use is in is `Queues`.
- Ticks.Channel.TickQueue: a tick that runs out of buffers is a given set of transactions.
- Ticks.Channel.TickStateMessages: the passes that serve requests and send new data record no resume point and are left out.
- ChunkLists.ChunkList.ListAdd: the two assertions of the source on ranges (not empty, no roll-over) are its precondition; `EndToEnd.EveryActionDefined` shows that no packet of a peer violates them.
- Codec: record continuation state and segment metadata of file data (rejected on receipt), checking the PDU checksum (its octets are cut off, `Wire.ChecksumCut`), large files, and the raw bit operations below the fields of an octet.
- Several transactions at once: the two ends exchange the packets of one transaction; telling transactions apart by sequence number is not part of this model.
- Software bus, tables, events, performance logs, semaphores, and the counters of housekeeping other than those of dispatch: foreign calls and plain increments.
- Seconds to ticks: timers are natural numbers of ticks.
- Playback and polling directories, file names, temporary and move names: directory I/O and strings; a file name is its length.
- Ground commands other than cancel, abandon and purging the history; parameters, dumps of history and queues, end-of-transaction packets.
- The statistics counter of requested segments, which counts gaps that no longer fit into the NAK.
