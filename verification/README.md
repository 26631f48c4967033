# aify-comms: models and proofs of its protocols and text transformations

The service of aify-comms keeps a few small concurrent protocols on one event loop, and a few text
transformations that must mean the same however their input is cut up. This project models them in Dafny 4.11
and proves what they keep over every run.

`dafny verify dfyconfig.toml` checks everything.

| files | what they model |
|---|---|
| `WriteQueue*.dfy` | the terminal-output write queue: posts are batched under one number, batches are popped, written, handed back, bounded and drained |
| `TerminalTail.dfy` | the stored tail of a terminal's output, held in memory and written lazily, with rollback of a failed write |
| `TerminalAnsi.dfy`, `HexColours.dfy`, `ScreenPrinter.dfy`, `ScreenPaint.dfy`, `ScreenMisfits.dfy` | the printer of a screen as ANSI text, and an ECMA-48 reader of its output (SGR section 8.3.117, CUP section 8.3.21, ED section 8.3.39) |
| `Removal.dfy`, `PrivateCsi.dfy`, `Routing.dfy`, `AltScreen.dfy`, `BalancedScreens.dfy`, `LiveScreen.dfy`, `Blocks.dfy`, `StreamPieces.dfy` | the live screen: a streaming sanitiser and a router between main and alternate screen |
| `DispatchClaim.dfy`, `DispatchStore.dfy`, `DispatchHistory.dfy` | claiming a dispatch run, the transaction that does it, and histories of claims mixed with everything else |
| `EnvironmentClaim.dfy` | claiming an environment control with compare-and-swap |
| `PooledConnections.dfy`, `ConnectionPool.dfy` | the database connection pool |
| `CommitReport.dfy` | what a checkout reports of its committed writes |
| `SqlPeel.dfy`, `SqlColumns.dfy` | the recogniser of the columns an UPDATE sets |
| `ChangeFeed.dfy`, `ChangeClient.dfy` | the change feed and a client that follows it |
| `LongPoll.dfy` | the waiter table and the claim loop |
| `JsonLines.dfy`, `PendingReplies.dfy` | JSON-RPC over a pipe, one message per line, and the table of pending replies |
| `FrameBuffer.dfy` | the single-flight terminal frame buffer |
| `Common.dfy` | shared small pieces |

A step of a model is what the source does between two awaits. Concurrency is the free choice of the next step.
Classes carry the source's fields; where a class has a `Valid()`, each of its methods keeps it, so it holds at every
step of every use.

## What does not hold, and exactly when it does

- **Write order under overlap.** A second drain of the same terminal may pop a newer batch while an older one fails.
  `WriteQueueOrder.FailureKeepsOrderIff` says exactly when one failure keeps the order and
  `WriteQueueOrder.OrderedThroughoutIff` when a whole run does; `WriteQueueLimits.OverlapReorders` is a trace on which it
  does not.
- **The newest status.** A hand-back puts its own status over newer ones, although the comment above it says the last one
  written must win, and a cancelled drain takes its status with it (`WriteQueueLimits.NewestStatusSurvivesIff`,
  `WriteQueuePosts.LastPostedWinsIff`); `WriteQueueLimits.OlderStatusWins` is a trace.
- **Drop notes.** A handed-back batch that is evicted is counted with its own note (`WriteQueueNotes.EvictionAnnouncesIff`,
  `WriteQueueNotes.NotesAnnounceDropsIff`); `WriteQueueNotes.EvictedNoteMisleads` is a trace.
- **Cancelled drains.** A drain cancelled while it waits for the write lock loses its batches; nothing else does
  (`WriteQueueLimits.LosesNothingIff`, `WriteQueueLimits.CancelLosesPost`).
- **One text per frame number.** A batch that claimed no number, a status or a drop note that a hand-back left over, is
  stored and sent under the number already in the row, which then names two texts
  (`WriteQueueFrames.FramesNameOnePayloadIff`, `WriteQueueFrames.StatusRepeatsNumber`).
- **Rising numbers.** The number in the row falls when a numbered batch is handed back behind one of a newer drain
  (`WriteQueueNumbers.RisingThroughoutIff`, `WriteQueueLimits.OverlapReorders`), also when the chunks keep their order
  (`WriteQueueFrames.StatusOvertakes`).
- **Gap-free numbers.** A hand-back or a cancelled drain can take a claimed number with it
  (`WriteQueueGaps.GaplessThroughoutIff`, `WriteQueueGaps.StatusLosesNumber`).
- **An unnumbered tail write** serves the stored number, which may lie behind the held one
  (`TerminalTail.LazyTailIsEagerIff`, `TerminalTail.UnnumberedFallsBack`).
- **Screens and cuts.** Removing a private sequence can put a switch sequence together; such a switch is acted on or not
  depending on the cuts (`AltScreen.ScreensIgnoreCutsIff`, `AltScreen.ExposedIsCut`).
- **One active run per agent.** Claims keep it, whatever else happens. Input delivered into a console inserts a running run
  after looking only for a terminal-backed turn of the same runtime, so it can be the second one
  (`DispatchHistory.NeverTwoActiveIff`, `DispatchHistory.ConsoleInputKeepsOneActiveIff`,
  `DispatchHistory.ConsoleInputMakesTwo`).
- **Failed rollbacks and scripts, and commits whose request was cancelled** while the worker went on: later reports are
  wrong unless nothing was pending (`CommitReport.FailureIsReportedRightIff`, `CommitReport.FailedScriptLosesReport`,
  `CommitReport.UnheardCommitLosesReport`).
- **SET lists.** An ending word outside parentheses, as in `IS DISTINCT FROM`, hides the columns after it, so an UPDATE
  that sets them can pass for a heartbeat (`SqlColumns.RecognisedIffNoneHidden`, `SqlColumns.ExposedFromHidesColumn`).
- **Detaching the feed** drops what waits without leaving a gap in the numbers (`ChangeClient.WaitingIsNamedIff`,
  `ChangeClient.DetachLeavesNoGap`).
- **The first push after opening** is taken as it comes, so one lost before it goes unnoticed
  (`ChangeClient.ClientIsUpToDateIff`, `ChangeClient.FirstGapIsUnseen`).
- **Pipe chunks** are decoded one by one; a character cut in two is lost (`JsonLines.DecodingIgnoresCutsIff`,
  `JsonLines.SplitCharacterIsLost`).
- **Rows with a stray stub.** The printer skips the right half of a wide glyph; a row in which one stands without its
  glyph, a wide glyph has none or hangs over the edge is painted differently (`ScreenMisfits.LinePaintsIff`,
  `ScreenMisfits.OrphanStubShifts`).
- **A clear cut in two** by chunks does not drop the mark of a reconstructed screen (`LiveScreen.UnmarksIff`,
  `LiveScreen.CutClearLeavesMark`).

## Model

| member | source | states |
|---|---|---|
| `WriteQueue.ExcessIsLeast` | service/terminal_write_queue.py:177-183 | the bound removes whole oldest chunks only, and as few as it takes to fit |
| `WriteQueue.StepCounted` | service/terminal_write_queue.py:110-183 | the character count of a pending batch equals the length of its chunks after every step |
| `WriteQueueOrder.RunConserves` | service/terminal_write_queue.py:110-417 | over every run each accepted chunk is exactly once in the row, the queue, a drain, the dropped or the lost ones |
| `WriteQueueOrder.AtRest` | service/terminal_write_queue.py:231-304 | with nothing pending and no drain outstanding, every accepted chunk is stored, dropped or lost, and nothing else is stored |
| `WriteQueueOrder.FailureKeepsOrderIff` | service/terminal_write_queue.py:285-298 | a failed write keeps everything stored and still to be written in posting order if and only if no other drain of the terminal holds a chunk or nothing of the failing one is still held |
| `WriteQueueOrder.OrderedThroughoutIff` | service/terminal_write_queue.py:231-304 | for every run, with any overlap and any number of failures: everything stored and still to be written is in posting order after each step if and only if no write fails with something of it still held while another drain of the terminal holds a chunk |
| `WriteQueueOrder.AloneIsInOrder` | service/terminal_write_queue.py:231-304 | in particular when every failure happens with no other drain of the terminal outstanding |
| `WriteQueueOrder.StoredInPostingOrder` | service/terminal_write_queue.py:110-417 | then, at every moment, the stored chunks followed by those still to be written are the accepted ones in posting order, each exactly once, minus only those the two bounds dropped or a cancelled drain lost; at rest with nothing removed the row has no note in it |
| `WriteQueuePosts.AcceptedArePosted` | service/terminal_write_queue.py:148-153 | over every run the accepted chunks are the texts of its posts, in order |
| `WriteQueuePosts.RowIsWhatWasPosted` | service/terminal_write_queue.py:110-417 | so at rest with nothing removed the row is the posted texts one after the other, byte for byte |
| `WriteQueuePosts.RunBounded` | service/terminal_write_queue.py:177-183 | in every run what waits of a terminal fits in the limit and at most 32 batches wait to be written again |
| `WriteQueueNumbers.NumberNamesOnePayload` | service/terminal_write_queue.py:262-298 | over every run a number claimed for a text is never claimed for another, and every batch that carries it, stored, in a drain or handed back, has that text; batches that claimed none are the subject of `FramesNameOnePayloadIff` |
| `WriteQueueNumbers.OneNumberPerBatch` | service/terminal_write_queue.py:116-175 | two accepted posts return the same number when no flush came between them, and otherwise the later one is strictly larger |
| `WriteQueueNumbers.FailureKeepsRisingIff` | service/terminal_write_queue.py:285-298 | after a failed write the numbers still to be stored keep rising above the row's if and only if no other drain of the terminal holds a numbered batch or nothing numbered of the failing one is still held |
| `WriteQueueNumbers.RisingThroughoutIff` | service/terminal_write_queue.py:231-304 | for every run, with any overlap, failures and cancelled drains: after each step the row's number is followed only by larger ones, in the order they will be stored, if and only if every failure meets that condition |
| `WriteQueueNumbers.StoredNumberNeverFalls` | service/terminal_write_queue.py:146-149 | then, if the first `base_seq` covers the row's own number, that number is never larger at an earlier moment of a run than at a later one |
| `WriteQueueFrames.FramesNameOnePayloadIff` | service/terminal_write_queue.py:461-573 | over every run the row's number is the one its last frame was sent under, and a number names one text among all frames stored if and only if every frame without a number of its own repeats the text before it |
| `WriteQueueFrames.StatusRepeatsNumber` | service/terminal_write_queue.py:382-407 | text posted with a status, one failed write: the text and then an empty frame with the status go out under the same number |
| `WriteQueueFrames.StatusOvertakes` | service/terminal_write_queue.py:382-407 | a status flushed behind a failing text: no chunk is overtaken and the row's number still falls from 2 to 1 |
| `WriteQueueGaps.FailureGaplessIff` | service/terminal_write_queue.py:382-417 | a hand-back leaves no gap in the numbers to come if and only if it gives up no numbered batch, without text or evicted, and lets none pass another |
| `WriteQueueGaps.GaplessThroughoutIff` | service/terminal_write_queue.py:100-149 | for every run: after each step the frames to come carry exactly the numbers that follow the row's, up to the last one claimed, if and only if no post jumps ahead, no hand-back gives up a number or reorders two, and no cancelled drain carries one |
| `WriteQueueGaps.FreshIsGapless` | service/terminal_write_queue.py:100-149 | a terminal of which nothing was posted yet starts so, whatever number its row holds |
| `WriteQueueGaps.FramesFollow` | service/terminal_write_queue.py:123-135 | as long as that is so each frame goes out under the row's number or the next one |
| `WriteQueueGaps.StatusLosesNumber` | service/terminal_write_queue.py:392-407 | a status posted alone whose write fails takes its number with it: the next frame skips one |
| `WriteQueueLimits.OverlapReorders` | service/terminal_write_queue.py:205-219 | a trace with two overlapping drains and one failure stores the newer post before the older one |
| `WriteQueueLimits.LosesNothingIff` | service/terminal_write_queue.py:281-298 | a run loses no chunk if and only if every drain it cancels had no chunk left to write |
| `WriteQueueLimits.CancelLosesPost` | service/terminal_write_queue.py:281-298 | a trace with two posts whose second drain is cancelled while it waits: the second post is lost |
| `WriteQueueLimits.NewestStatusSurvivesIff` | service/terminal_write_queue.py:392-407 | with any overlap a hand-back leaves the newest status to be written last if and only if the failing drain carries none or carries the newest one |
| `WriteQueueLimits.CancelKeepsStatusIff` | service/terminal_write_queue.py:281-298 | a cancelled drain leaves the newest status to be written last if and only if it carries none, a newer one waits behind it, or what is written before it ends in the same one |
| `WriteQueuePosts.LastPostedWinsIff` | service/terminal_write_queue.py:154-155 | for every run, failures under overlap and cancelled drains included: after each step the status to be written last is the last one among the posts made until then if and only if every failing and every cancelled drain meets its condition |
| `WriteQueuePosts.RowEndsWithLastPosted` | service/terminal_write_queue.py:154-155 | then, with everything written, the row ends with the status of the last post that carried one |
| `WriteQueueLimits.OlderStatusWins` | service/terminal_write_queue.py:392-407 | a trace with two overlapping drains, the older failing, after which the row ends with the older status |
| `WriteQueuePosts.NoteSaysHowMany` | service/terminal_write_queue.py:254-256 | the note is the source's sentence, and reading the digits in it gives the number back |
| `WriteQueuePosts.StoredNotesSayHowMany` | service/terminal_write_queue.py:254-256 | in every run the note of each stored batch gives the number that batch stands for |
| `WriteQueueNotes.EvictionAnnouncesIff` | service/terminal_write_queue.py:414-417 | after a hand-back the numbers in the notes add up to exactly what was dropped if and only if the evicted notes are as long as the numbers they announced |
| `WriteQueueNotes.CancelAnnouncesIff` | service/terminal_write_queue.py:281-298 | after a drain is cancelled they still do if and only if it carried no note |
| `WriteQueueNotes.NotesAnnounceDropsIff` | service/terminal_write_queue.py:254-256 | for every run: after each step the notes announce exactly the characters the two bounds removed if and only if every hand-back and every cancelled drain meets its condition |
| `WriteQueueNotes.EvictedNoteMisleads` | service/terminal_write_queue.py:409-417 | a run of failing posts after an over-long one: with the thirty-third batch the note is evicted and the announced number is the length of the note |
| `WriteQueueService.TerminalOutputWriteQueue.BoundPending` | service/terminal_write_queue.py:177-183 | removes the least number of oldest chunks that brings the count within the limit |
| `WriteQueueService.TerminalOutputWriteQueue.Enqueue` | service/terminal_write_queue.py:110-175 | refuses an empty post, otherwise joins or opens the batch of that terminal, which then carries the status of this post or keeps its own, returns its number, and changes no other terminal |
| `WriteQueueService.TerminalOutputWriteQueue.FlushTerminal` | service/terminal_write_queue.py:231-251 | pops the pending state and raises the in-flight count in the same step |
| `WriteQueueService.TerminalOutputWriteQueue.CommitBatch` | service/terminal_write_queue.py:281-286 | the oldest waiting drain stores its next batch in one step, skipping a void one |
| `WriteQueueService.TerminalOutputWriteQueue.FailBatch` | service/terminal_write_queue.py:287-298 | a failed write hands back that batch and all after it, and only then leaves the in-flight count |
| `WriteQueueService.TerminalOutputWriteQueue.RequeueFront` | service/terminal_write_queue.py:382-407 | batches return to the front with their own numbers and the newest of their statuses goes to the pending batch |
| `WriteQueueService.TerminalOutputWriteQueue.BoundRetry` | service/terminal_write_queue.py:409-417 | at most 32 batches are held, the oldest given up and counted |
| `WriteQueueService.TerminalOutputWriteQueue.FinishDrain` | service/terminal_write_queue.py:248-251 | the in-flight count falls only when the drain has nothing left |
| `WriteQueueService.TerminalOutputWriteQueue.CancelWaiting` | service/terminal_write_queue.py:248-251 | any drain cancelled while it waits for the lock ends with its batches lost, the first one too |
| `WriteQueueService.TerminalOutputWriteQueue.Drained` | service/terminal_write_queue.py:579-594 | when `flush_all` finds nothing pending and nothing in flight, every accepted chunk of every terminal is stored, dropped or lost at that instant |
| `WriteQueueService.ReachableConserved` | service/terminal_write_queue.py:110-417 | every state a terminal of the queue object can be in conserves its chunks |
| `TerminalTail.TrimKeepsTheEnd` | service/api_core/terminal_output.py:48-62 | a text over 65536 characters is cut right after the first line break of its last 65536, unless nothing would be left or there is none; then those stay |
| `TerminalTail.RowIsWrittenIff` | service/api_core/terminal_tail_buffer.py:101-124 | the row is written with the first write, a second or more after the last time, and at the end; in between it stays and the tail is held |
| `TerminalTail.TerminalStore.Append` | service/api_core/terminal_output.py:65-219 | an append updates the held tail and writes the row when it is due or the status moves |
| `TerminalTail.TerminalStore.Write` | service/terminal_write_queue.py:461-561 | a write that is refused at any point, after the held tail was already moved, leaves the row and the held tail as they were |
| `TerminalTail.TerminalStore.Apply` | service/terminal_write_queue.py:461-561 | a write or a settle, refused anywhere or nowhere, is one step of the runs that are compared with the eager writer |
| `TerminalTail.TerminalStore.Retry` | service/terminal_write_queue.py:461-499 | a write repeated after any number of refusals, each undone from the snapshot, ends with the row and tail of an immediate success |
| `TerminalTail.LazyTailIsEagerIff` | service/api_core/terminal_tail_buffer.py:65-124 | over every run, from a new terminal on: after each step the tail and number served are those an eager writer would have stored if and only if no unnumbered write is accepted while the row's number is not the one served |
| `TerminalTail.LazyBytesAreEager` | service/api_core/terminal_tail_buffer.py:65-124 | the bytes agree for runs with unnumbered writes too |
| `TerminalTail.SettleCatchesUp` | service/terminal_write_queue.py:337-380 | settling makes the row equal to the tail served |
| `TerminalTail.TerminalStore.Play` | service/terminal_write_queue.py:461-561 | a whole run of the object, whichever attempts are refused and wherever: it then serves the bytes an eager writer would have stored from the accepted writes, and the number under that condition |
| `TerminalTail.NumberedIsEager` | service/api_core/terminal_output.py:65-219 | a run whose writes all carry a number meets that condition |
| `TerminalTail.UnnumberedFallsBack` | service/api_core/terminal_output.py:65-219 | from a new terminal, two numbered writes and an unnumbered one: the bytes go forward and the number served goes back |
| `TerminalTail.EagerIsTheEnd` | service/api_core/terminal_output.py:48-62 | what is stored is always an end of everything written, not only of what was stored before |
| `TerminalAnsi.SgrSetsTheCell` | service/terminal_ansi.py:33-68 | the SGR parameters of a cell, read by a terminal in any state, set exactly the attributes of that cell |
| `HexColours.WrittenColourReadsBack` | service/terminal_ansi.py:40-48 | every 24-bit colour written as six hexadecimal digits, in either case, is printed as its three numbers |
| `HexColours.CaseIsIgnored` | service/terminal_ansi.py:37-37 | a colour name is read with every capital as its small letter and nothing else changed |
| `ScreenPrinter.LineToAnsi` | service/terminal_ansi.py:71-97 | the printing loop emits the tokens of the line up to its last visible column |
| `ScreenPrinter.FindLast` | service/terminal_ansi.py:77-85 | finds the last column that shows something |
| `ScreenPaint.LinePaints` | service/terminal_ansi.py:71-97 | a printed well-formed line paints exactly that line on a blank row and changes nothing else: skipped SGRs and trimmed blanks change nothing |
| `ScreenMisfits.LinePaintsIff` | service/terminal_ansi.py:71-97 | for every line: printing it onto a blank row paints exactly that line and stays on it if and only if each stub follows a wide glyph, each wide glyph has its stub and none hangs over the edge |
| `ScreenMisfits.OrphanStubShifts` | service/terminal_ansi.py:86-97 | a stub without its wide glyph in the first column makes the glyph of the second one appear in the first |
| `ScreenPaint.ScreenToAnsi` | service/terminal_ansi.py:100-129 | history lines, rows and the clamped cursor are printed in that order |
| `ScreenPaint.PrintedScreenPaints` | service/terminal_ansi.py:100-129 | any terminal of the size, in any state, that reads the printed screen shows every cell with glyph and attributes, has exactly the history lines added to its scrollback in order, and the cursor at the clamped position |
| `ScreenPaint.PrintedTextIsPlainText` | service/terminal_snapshot.py:492-522 | for every line, well-formed or not, the printed glyphs are the row of the plain text up to trailing spaces |
| `PrivateCsi.ChunkContinues` | service/terminal_snapshot.py:97-110 | one chunk continues the sanitised stream and holds back what the whole stream holds back |
| `AltScreen.StrippingIgnoresCuts` | service/terminal_snapshot.py:293-312 | however the stream is cut, the bytes passed on are the sanitised stream less the held suffix, and the suffix is what is held |
| `StreamPieces.SanitisedPieces` | service/terminal_snapshot.py:97-110 | a stream of text and complete sequences loses exactly the sequences prefixed with `<`, `>` or `=` and the SGRs prefixed with `?`; plain sequences, modes and text stay as they are |
| `StreamPieces.PiecesReachTheirScreen` | service/terminal_snapshot.py:293-331 | however such a stream is cut, the main screen is given exactly the text and sequences outside an enter and a leave (modes 1049, 1047 and 47), the overlay those since the last enter, and nothing is held back |
| `AltScreen.ScreensIgnoreCutsIff` | service/terminal_snapshot.py:293-331 | at every moment and for all cuts the two screens are the same if and only if sanitising puts together no switch the router acts on |
| `AltScreen.ExposedIsCut` | service/terminal_snapshot.py:97-101 | a stream with a key-protocol sequence inside a switch, for which they are not the same |
| `BalancedScreens.MainIsStripBalanced` | service/terminal_snapshot.py:61-68 | for every text, cutting out the balanced regions leaves the bytes of the main screen, followed, inside the alternate screen, by the open enter and the overlay's bytes |
| `LiveScreen.LiveScreen.Draw` | service/terminal_snapshot.py:313-331 | the segment loop routes like the byte-by-byte router and unmarks the screen exactly when a main segment holds a clear |
| `LiveScreen.LiveScreen.Feed` | service/terminal_snapshot.py:293-331 | advances screens and held suffix by one chunk, drops the mark exactly when this chunk draws a whole clear on the main screen, which is then among the bytes it added, and makes the kept rendering out of date |
| `LiveScreen.LiveScreen.Render` | service/terminal_snapshot.py:333-350 | returns what a new rendering would be, though it reuses the kept one |
| `LiveScreen.LiveScreen.Resize` | service/terminal_snapshot.py:352-371 | keeps the stream and the held suffix and makes the kept rendering out of date |
| `LiveScreen.ClearIsReal` | service/terminal_snapshot.py:230-247 | a text that drops the mark has put a full clear among the bytes it added to the main screen |
| `LiveScreen.UnmarksIff` | service/terminal_snapshot.py:319-331 | the search in whole segments drops the mark if and only if the byte-by-byte router comes to a clear on the main screen |
| `StreamPieces.PiecesUnmarkIff` | service/terminal_snapshot.py:230-234 | a chunk of complete sequences drops the mark if and only if one of them is `CSI 2J` or `ESC c` and is drawn on the main screen |
| `LiveScreen.CutClearLeavesMark` | service/terminal_snapshot.py:319-331 | a clear cut between two chunks is on the main screen and drops no mark |
| `DispatchClaim.ClaimKeepsOneActive` | service/dispatch_claim.py:231-304 | one claim transaction never gives an agent a second active run |
| `DispatchClaim.ClaimSparesLiveRun` | service/dispatch_claim.py:234-270 | a run whose owner is alive, or is the one asking, is left as it is |
| `DispatchClaim.ClaimKeepsOwnerAlive` | service/dispatch_claim.py:163-222 | a claim does not end the life of another bridge |
| `DispatchClaim.ClaimAddsNoActiveRun` | service/dispatch_claim.py:231-378 | whatever the rows hold, a claim leaves no agent with more active runs than it had, or than one |
| `DispatchHistory.KeepsOneActiveIff` | service/dispatch_claim.py:231-304 | any transaction at all keeps every agent at one active run if and only if each run it makes active is then the only one of its agent |
| `DispatchHistory.NeverTwoActiveIff` | service/dispatch_claim.py:81-401 | in every history of claims and any other transactions no agent ever has two active runs if and only if each of the others leaves the runs it makes active alone; nothing is asked of the claims |
| `DispatchHistory.ClaimsAloneAddNone` | service/dispatch_claim.py:81-401 | claims alone, in any number and from any rows, never raise the number of active runs of an agent above what it was, or one |
| `DispatchHistory.JoinsTurnIff` | service/api_core/console_input_queue.py:70-147 | in the fields of the rows: which active run the input is joined to, and what run is added otherwise |
| `DispatchHistory.ConsoleInputKeepsOneActiveIff` | service/api_core/console_input_queue.py:70-147 | delivering input into a console keeps every agent at one active run if and only if the runtime tracks no turns, a turn of that runtime is under way, or the agent has no active run |
| `DispatchHistory.ConsoleInputMakesTwo` | service/api_core/console_input_queue.py:70-147 | an ordinarily claimed run and then console input: two active runs |
| `DispatchHistory.LiveRunIsNeverFailed` | service/dispatch_claim.py:231-304 | a run that others may change while it stays active with its owner and target, and whose owner lives or is the one asking at every claim, keeps owner and target throughout; no claim changes it or ends its owner's life |
| `DispatchHistory.ClaimedOncePerQueueing` | service/dispatch_claim.py:350-378 | between two claims that return the same run another transaction put it back in the queue |
| `DispatchStore.DispatchStore.Admit` | service/dispatch_claim.py:92-191 | the gates in order, with driver adoption and revival on the way and nothing else touched |
| `DispatchStore.DispatchStore.Revive` | service/dispatch_claim.py:163-171 | a polling sidecar's own row, and no other, is no longer superseded |
| `DispatchStore.DispatchStore.Beat` | service/dispatch_claim.py:193-222 | the poll is the heartbeat of the asking bridge and of no other |
| `DispatchStore.DispatchStore.HealStale` | service/dispatch_claim.py:231-303 | fails the active run if and only if the one asking is not its owner, the owner was not heard of in the last 120 seconds, and the run is at least 120 seconds old, or 1800 or the set minutes and never under 300 if nobody owns it |
| `DispatchStore.JudgedByTheRow` | service/api_core/claim_run_selection.py:36-80 | of each queued run, in the fields of its row: when it is taken, when it waits on, and when and how it is settled |
| `DispatchStore.DispatchStore.TakeFirst` | service/api_core/claim_run_selection.py:29-86 | the listed runs before the one taken could not be taken and became what they had to; the one taken can be executed here and is now claimed by this bridge; nothing else changed |
| `DispatchStore.DispatchStore.TakeNext` | service/dispatch_claim.py:304-392 | nothing is claimed past a closed gate; otherwise the first run that can be taken is marked |
| `DispatchStore.DispatchStore.ClaimOnce` | service/dispatch_claim.py:81-401 | the whole transaction: who may ask, what each run row becomes and why, exactly when the active run is failed, that the run returned is executable here and was asked for no later than any other that is, and that the asking bridge was heard of now |
| `PooledConnections.AlwaysInOnePlace` | service/db_pool.py:213-347 | in every run of requests, workers, cancellations, deaths and re-bindings each connection is in exactly one place and fits it, open checkouts hold connections of their own, and the idle count stays within the limit |
| `PooledConnections.IdleIsClean` | service/db_pool.py:323-347 | an idle connection is idle once, has an empty worker queue and no open transaction, was never marked dirty, and is of the pool's file and loop |
| `PooledConnections.CheckoutsAreApart` | service/db_pool.py:213-226 | no two open checkouts share a connection |
| `PooledConnections.WorkerKeeps` | service/db_pool.py:78-85 | whatever a cancelled request left queued has run before the reset, so a connection that has been reset has no open transaction |
| `PooledConnections.OpenTransactionIff` | service/db_pool.py:78-85 | after any list of statements, commits and rollbacks a transaction is open if and only if one opened it and none after that ended it |
| `PooledConnections.CloseKeeps` | service/db_pool.py:213-226 | detaching before release keeps every connection in one place |
| `PooledConnections.ReturnKeeps` | service/db_pool.py:334-347 | a connection becomes idle only after its reset and only for the pool's file and loop |
| `ConnectionPool.Pool.Bind` | service/db_pool.py:303-308 | binding to another file or loop leaves nothing idle |
| `ConnectionPool.Pool.RetireIdle` | service/db_pool.py:269-277 | lets go of exactly the idle connections |
| `ConnectionPool.Pool.Aclose` | service/db_pool.py:253-267 | pooling is off and nothing is idle |
| `ConnectionPool.Pool.TakeIdle` | service/db_pool.py:310-321 | a reused connection is alive, clean, and of the right file, loop and timeout; only dead ones are let go; none is left when nothing is reused |
| `ConnectionPool.Pool.Opened` | service/db_pool.py:320-321 | an opened connection is a checkout of its own |
| `ConnectionPool.Pool.ServesNextRequest` | service/db_pool.py:310-347 | a connection opened for a request, closed and reset serves the next request for its file, timeout and loop without another being opened |
| `ConnectionPool.Pool.Issue` | service/db_pool.py:145-167 | work on a closed checkout is refused; a statement that changes the connection marks it |
| `ConnectionPool.Pool.Work` | service/db_pool.py:78-85 | the worker takes its jobs in the order they were queued |
| `ConnectionPool.Pool.Close` | service/db_pool.py:213-226 | a second close does nothing; a dirty or dead connection is let go, any other gets its reset queued last |
| `ConnectionPool.Pool.ReleaseFails` | service/db_pool.py:325-333 | a connection whose reset was cancelled is let go |
| `ConnectionPool.Pool.FinishRelease` | service/db_pool.py:334-347 | after the reset the connection is idle if and only if pooling is on, file and loop match and the limit is not reached |
| `CommitReport.StepTracksIff` | service/db_pool.py:127-198 | one step keeps the notes and the count in agreement with the transaction and reports exactly what it made durable, if and only if it is not a failed rollback or script nor an unheard commit, or found nothing pending |
| `CommitReport.ReportsWhatCommitted` | service/db_pool.py:127-198 | for every history in which rollbacks and scripts succeed and no commit goes unheard, the reports are exactly the writes of the committed transactions that changed a row, in order, each once |
| `CommitReport.FailureIsReportedRightIff` | service/db_pool.py:169-194 | after a failed rollback or script, or a commit that took effect although its request was cancelled, all later reports are right if and only if nothing was pending |
| `CommitReport.FailedScriptLosesReport` | service/db_pool.py:169-194 | committed writes before a failed script are not reported when a rollback follows |
| `CommitReport.UnheardCommitLosesReport` | service/db_pool.py:12-17 | a write committed by the worker after its request was cancelled is durable and never reported |
| `CommitReport.Checkout.Execute` | service/db_pool.py:127-149 | if what was told is what became durable and the notes are those of the open transaction, that is still so after a statement |
| `CommitReport.Checkout.Commit` | service/db_pool.py:180-187 | a commit tells the pool exactly what it made durable, and a refused one nothing; an unheard one leaves that right if and only if nothing was pending |
| `CommitReport.Checkout.Rollback` | service/db_pool.py:189-194 | a rollback leaves what was told right; one that fails does so if and only if nothing was pending |
| `CommitReport.Checkout.ExecuteScript` | service/db_pool.py:169-178 | a script tells what was pending and its own writes as they become durable; one that fails leaves that right if and only if nothing was pending and it changed no row |
| `CommitReport.Checkout.Reissue` | service/db_pool.py:106-115 | the next checkout of the connection tells nothing of the one before it, whatever that left uncommitted |
| `SqlPeel.Peel` | service/change_feed.py:126-130 | the loop ends, its fixpoint is what one reading with a stack leaves on every text, and no open parenthesis precedes a closing one in it |
| `SqlPeel.PassShrinks` | service/change_feed.py:93-93 | a pass shortens the text unless there is nothing left to remove |
| `SqlPeel.PassKeepsReading` | service/change_feed.py:126-130 | a pass does not change what one reading leaves |
| `SqlPeel.PeelIsProjection` | service/change_feed.py:126-130 | on balanced text the peeled text is exactly what stands outside every parenthesis |
| `SqlColumns.FindColumns` | service/change_feed.py:133-145 | peels, cuts at the first ending word and collects the assigned names |
| `SqlColumns.RecognisedColumns` | service/change_feed.py:133-145 | for every SET list with commas parenthesised, the columns found are those of the items up to the first exposed ending word |
| `SqlColumns.RecognisedIffNoneHidden` | service/change_feed.py:96-97 | they are all the assigned columns if and only if every later one is also assigned before that word |
| `SqlColumns.LivenessIffAllDeclared` | service/change_feed.py:109-117 | with ending words parenthesised, an UPDATE is liveness if and only if the table is declared whole or every column it sets is declared |
| `SqlColumns.UnknownColumnsAreReal` | service/change_feed.py:109-117 | a write of which no column is known, an INSERT or a DELETE, is liveness if and only if its whole table is declared |
| `SqlColumns.EndingWords` | service/change_feed.py:96-96 | the words that end a SET list |
| `SqlColumns.ExposedFromHidesColumn` | service/change_feed.py:96-96 | an UPDATE whose second column is not recognised |
| `ChangeFeed.ChangeFeed.Committed` | service/change_feed.py:203-221 | exactly the claim scopes of the written tables are woken, attached or not; each written table waits as a real change or as liveness; a wait already running keeps its start; it is the commit step of the feed that the client lemmas are about |
| `ChangeFeed.ChangeFeed.Schedule` | service/change_feed.py:242-257 | the armed time only moves earlier, and is within 250 ms for a real change and 10 s for liveness |
| `ChangeFeed.ChangeFeed.Flush` | service/change_feed.py:259-280 | one event with the next number; a table with a real write is named in it and never only as liveness |
| `ChangeFeed.ChangeFeed.Detach` | service/change_feed.py:194-200 | what waits is dropped, no number is used and no timer stays armed |
| `ChangeClient.ClientIsUpToDateIff` | service/new_dashboard/change-refresh.mjs:75-118 | whichever pushes were lost, came twice, late or out of turn, and however often the socket opened: after everything it hears the client has fetched every table since each event up to the newest it knows of if and only if the first event after each opening leaves out no table that changed in between |
| `ChangeClient.OpenedIsUpToDate` | service/new_dashboard/change-refresh.mjs:75-87 | a client whose socket has just opened is up to date, whenever that is |
| `ChangeClient.FirstGapIsUnseen` | service/new_dashboard/change-refresh.mjs:100-112 | a push lost between the opening and the first event that arrives is never noticed |
| `ChangeClient.RunPublishes` | service/change_feed.py:259-280 | what one process publishes over any run is numbered as `ClientIsUpToDateIff` needs it |
| `ChangeClient.NextEventNames` | service/change_feed.py:239-280 | if the timer fires before the feed is detached, the very next event names every table with a real write that waits, and not as liveness |
| `ChangeClient.WaitingIsNamedIff` | service/change_feed.py:194-280 | a waiting change of a table that does not change again is named by a later event if and only if the timer fires before the feed is detached |
| `ChangeClient.DetachLeavesNoGap` | service/change_feed.py:194-200 | a run in which a change is in no event and the numbers still follow |
| `EnvironmentClaim.EachControlOnce` | service/environment_claim.py:34-121 | for any number of bridges and any interleaving each control is handed out at most once |
| `EnvironmentClaim.GrantedStopsAreFresh` | service/environment_claim.py:57-88 | in every run a control handed out is meant for that environment and bridge, and a stop handed to the environment's owner was not asked for by a takeover and not before that bridge started |
| `EnvironmentClaim.OnlyStaleStopsFail` | service/environment_claim.py:81-102 | a control is failed only by the owner of the environment, and only if it is a stop that a takeover asked for or that is older than the bridge |
| `EnvironmentClaim.LeavesPendingOnce` | service/environment_claim.py:81-102 | a control leaves pending once and never comes back |
| `EnvironmentClaim.VoidLoopEnds` | service/environment_claim.py:38-95 | a bridge goes round the void loop at most as often as there were pending controls, whatever the others do |
| `EnvironmentClaim.Controls.Update` | service/environment_claim.py:81-102 | the conditional update changes one pending row, and tells whether it did |
| `EnvironmentClaim.Controls.SelectOldest` | service/environment_claim.py:39-52 | the oldest pending control for that environment and bridge |
| `EnvironmentClaim.Controls.ClaimOnce` | service/environment_claim.py:34-133 | with other bridges acting at every pause the loop ends; a control it returns was pending, meant for this bridge, not a stop its owner must not honour, and no older one was passed over; every other change is a stale stop it failed itself or another bridge's; without a lost race an empty answer means nothing is pending for it |
| `LongPoll.Waiters.Register` | service/longpoll.py:125-130 | the table holds exactly the sleepers |
| `LongPoll.Waiters.Unregister` | service/longpoll.py:134-139 | a sleeper leaves the table and no empty scope stays |
| `LongPoll.Waiters.Notify` | service/longpoll.py:109-122 | wakes every sleeper on the scope and every wildcard, nobody else, and counts each once |
| `LongPoll.TakeTurn` | service/longpoll.py:213-228 | one sleep, until notified or the fallback or the end of the wait, whichever is first, and at most one attempt, none after the caller has left |
| `LongPoll.Poll` | service/longpoll.py:171-231 | no attempt once the caller has left; all sleep within the wait and 25 s; an answer found is returned at once and an error raised; an empty answer only if the caller left or the whole wait, up to 25 s, is over; the clock less the time noted as waiting is the sum of what the attempts took |
| `JsonLines.ParseMessage` | mcp/stdio/hermes-acp-protocol.js:72-87 | the messages of the complete lines, and the rest |
| `JsonLines.CutsDoNotMatter` | mcp/stdio/hermes-session.js:246-251 | for every way of cutting the text, remainder plus chunk gives the messages and remainder of the whole |
| `JsonLines.FramesArrive` | mcp/stdio/hermes-acp-protocol.js:57-67 | encoded frames, however cut, arrive as exactly those frames in order with nothing left over |
| `JsonLines.EncodedTextDecodes` | mcp/stdio/hermes-session.js:246-248 | every text of Unicode characters, encoded and read whole, comes back character by character |
| `JsonLines.CutKeepsCharactersIff` | mcp/stdio/hermes-session.js:246-248 | two chunks of bytes decode to the text if and only if the cut is not inside a character |
| `JsonLines.DecodingIgnoresCutsIff` | mcp/stdio/hermes-session.js:246-248 | chunk-by-chunk decoding gives the text of the stream if and only if no chunk ends inside a character |
| `JsonLines.SplitCharacterIsLost` | mcp/stdio/hermes-session.js:246-248 | every two-byte character that arrives as two chunks is read as two replacements |
| `PendingReplies.SettledOnce` | mcp/stdio/hermes-session.js:253-298 | in every history each request is pending or settled exactly once, and none is pending after an exit |
| `PendingReplies.Replies.Ask` | mcp/stdio/hermes-session.js:279-298 | a request gets the next id and a timer, or is rejected at once when the child cannot be written to |
| `PendingReplies.Replies.OnReply` | mcp/stdio/hermes-session.js:253-266 | a reply settles its request; a late or duplicate one does nothing |
| `PendingReplies.Replies.OnTimeout` | mcp/stdio/hermes-session.js:282-285 | only the timer of a pending request fires |
| `PendingReplies.Replies.OnExit` | mcp/stdio/hermes-session.js:457-475 | every pending request is rejected once and the table is empty |
| `FrameBuffer.FrameBuffer.Push` | mcp/stdio/codex-session.js:102-116 | nothing but whole oldest frames is dropped, and no more than the bound requires |
| `FrameBuffer.FrameBuffer.Trim` | mcp/stdio/codex-session.js:108-114 | ends within 65536 characters or with a single frame |
| `FrameBuffer.FrameBuffer.Flush` | mcp/stdio/codex-session.js:118-133 | offers the oldest frame if a sink is attached, a frame waits and no drain runs, and otherwise changes nothing |
| `FrameBuffer.FrameBuffer.Continue` | mcp/stdio/codex-session.js:122-132 | offers the oldest frame first, loses none, and ends the drain only when nothing is left to do |
| `FrameBuffer.FrameBuffer.Attach` | mcp/stdio/codex-session.js:95-98 | attaching to a non-empty buffer has a drain running afterwards |
| `FrameBuffer.FrameBuffer.Detach` | mcp/stdio/codex-session.js:100-100 | frames keep waiting |
| `FrameBuffer.FrameBuffer.SinkReturns` | mcp/stdio/hermes-session.js:131-136 | the drain goes on with whatever sink is attached by then |
| `FrameBuffer.OfferedInOrder` | mcp/stdio/codex-session.js:118-133 | frames are offered in push order, each at most once |

## Left out

- Timers that start a flush, the settle timer, `append_outside_the_queue` and the broadcast of the write queue: a flush may start at any moment; other holders of the write lock are not told apart.
- A write whose connection fails to close after its commit: it would be handed back although it is stored; a write is atomic here.
- A terminal row that does not exist: the row is there throughout.
- WriteQueueService.TerminalOutputWriteQueue.Drained: is one look of the polling loop; that the loop ends is not claimed, since posts may keep coming.
- `_terminal_status_transition`: which status changes a row takes is not part of this model.
- TerminalAnsi.SgrSetsTheCell: colours are names of the tables or six hexadecimal digits; the other spellings Python's `int(x, 16)` accepts are not.
- ScreenPaint.PrintedScreenPaints: a wide glyph is one the parameter `w` calls wide; a row is well-formed when each empty stub follows one.
- LiveScreen.LiveScreen.Resize: the emulator is a recorder of the bytes it was fed, so what a resize does to cells already drawn is not captured, nor the rebuild when the emulator raises.
- The registry of live screens, seeding and screen numbers (`feed_live_screen`): a bounded dictionary around the modelled object; it would add only easy members.
- StreamPieces.PiecesReachTheirScreen: streams of complete sequences; one that breaks off is covered by `AltScreen.ScreensIgnoreCutsIff`, and control strings (OSC, DCS) count as an escape and text.
- `infer_source_width`, `render_snapshot` and `pyte` itself.
- DispatchStore.DispatchStore.ClaimOnce: the block reason, the adoption check, the console check, the readiness gate and the agent's execution mode are inputs, strings are taken as already trimmed and lower-cased, and the two queries are given by what they return.
- Events, read receipts, pending controls of a healed run and the answer's payload in the dispatch claim.
- Who else inserts or changes runs: any other transaction is an arbitrary change of the rows; console input is the one modelled by itself.
- ConnectionPool.Pool.TakeIdle: the per-timeout lists are one list in order of return; a disabled pool, which hands out plain connections, is not modelled.
- ConnectionPool.Pool.FinishRelease: a checkout is used and closed on the loop it was taken on.
- WriteQueueService.TerminalOutputWriteQueue.FailBatch: the hand-back and the end of the drain are one step; in the source another task may run between them, with the drain still counted.
- CommitReport.ReportsWhatCommitted: a script and what was pending before it count as one transaction, as the source reports them.
- CommitReport.FailureIsReportedRightIff: a script whose request was cancelled counts as one that failed, and a cancelled rollback as one that succeeded, since its clean-up still runs.
- SqlColumns.RecognisedColumns: works on tokens; comments, string literals, quoting, letter case and the table name are read before it. `written_table` beyond that is left out.
- ChangeFeed.ChangeFeed.Schedule: called on the event loop; off it the source arms nothing.
- Derived changes (`agent_status_moved`, `derived_moved`) and the Pi checker's wake-up: they add a table as `Committed` does.
- EnvironmentClaim.VoidLoopEnds: no control is inserted meanwhile; with a stream of new void stops the loop need not end.
- LongPoll.Poll: times are whole milliseconds and a sleep ends at its timeout; locks are recognised by the caller's input.
- JsonLines.FramesArrive: JSON itself is a parameter that reads back what it wrote on one line.
- JsonLines.DecodingIgnoresCutsIff: only the lengths of UTF-8 sequences are modelled (section 3 of RFC 3629); overlong and surrogate forms count as characters, and bytes that are no character give one replacement each where Node gives one for a truncated sequence.
- ChangeClient.ClientIsUpToDateIff: a table stands for the slices that read it, and a fetch succeeds and happens when it is asked for; debouncing, retries, polling while the socket is down and the order of paints are left out.
- WriteQueueFrames.FramesNameOnePayloadIff: the row's number is the one last stored; that it lags while the tail is held is `TerminalTail`'s subject.
- FrameBuffer.FrameBuffer.Continue: the sink does not call back into the buffer before it returns.
- The rest of the Codex, Hermes and Pi sessions, HTTP and WebSocket plumbing, schema, registration, reconcilers and doctor checks.
