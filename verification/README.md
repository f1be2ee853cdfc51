# Verified models of the Acepe core

Models, in Dafny, of the parts of the repository whose correctness rests on arithmetic over
positions, on interleavings, or on state threaded through long runs. Each file is one module;
values are datatypes and functions, and code that changes state in place is a class or a method
proved against a function. `dafny verify dfyconfig.toml` checks everything.

- **Unified diffs** (`GitHunks`, `GitHunkTies`, `GitHunkParser`, `GitHunkReading`, `GitHunkContent`).
  Parsing a patch, applying its hunks to old content, and reverting any subset of them on new content. The code splices
  from the bottom up; the reference reads the old lines once from the top, taking the new side of the
  chosen hunks and the old side of the others. The two agree on lines for every subset, touching hunks
  included, as long as no two hunks tie in the sort: in their old start for applying, in their new start
  for reverting. `GitHunkTies` says what comes out for every list, ties included, and exactly when it is
  right. On whole files applying and then reverting agree exactly under the condition `Recoverable`,
  because joining and splitting lines are not inverse for two kinds of line lists; on the real new file
  they agree exactly when both files have the same final newline. Printing follows POSIX.1-2017, utility
  diff, "Diff -u or -U Output Format".
- **Scenario player** (`ScenarioPlayer`, `PlayerControls`, `PlayerSubscribers`). Every Ref access and
  every queue offer is one atomic step; any number of drivers and controls run at once, and any of them
  may be abandoned between any two of its steps. Abandoning an emission repeats an entry of `emitted`;
  what each subscriber receives is still gapless and free of repeats. What each control does is stated
  for its fiber running alone from any state a run can reach.
- **Session snapshot** (`SessionSnapshot`, `SessionTurns`, `SessionRows`, `SessionTranscript`,
  `SessionCheckpoints`, `SessionFields`, `SessionActivities`) and **resuming client** (`ResumingClient`).
  The fold of the event log behind a sequence watermark, row by row against a reading of the admitted
  events, and the stream that reconnects forever and filters on a cursor. Sequences in the log strictly
  increase but may have holes.
- **Viewport** (`Viewport`, `ViewportRequests`, `ViewportRuns`). The stick-to-bottom controller as a class
  whose methods refine transitions on values; where every request ends, in plain fields; and what holds of
  whole runs of events, clock readings and layout changes.
- **Grading** (`Json`, `Grade`, `GradeFields`, `GradeTokens`, `GradeWalk`). Two JSON trees pass exactly
  when they agree up to key order, timestamps and one injective renaming of generated ids; otherwise the
  report names the one first difference. `GradeTokens` says exactly which trees this can be trusted for,
  and which trees a second normalisation leaves alone.
- **Socket framing** (`Utf8`, `Utf8Errors`, `SocketFraming`). Partial writes conserve bytes, and a write
  that the socket takes in full delivers everything; chunking does not matter to the lines handed on. The decoder follows section 3 of RFC 3629, with the replacement and byte
  order mark behaviour of a streaming `TextDecoder`.
- **Correlation** (`Correlator`, `CorrelatorAccounts`). What every run returns and still holds, against a
  reference read off the lines; every notification is accounted for as returned, still open, or thrown
  away by a reused id.
- **Dead code** (`DeadCode`, `DeadCodeClasses`), **rebuild waves** (`RebuildWave`). Breadth-first
  reachability and what each class of file means by paths; a memoised longest chain that also ends on
  cyclic plans.
- Shared: `Wrappers`, `Sequences`, `Lines` (split and join), `StableSort`, `Decimal`.

Where the code and its comments disagree the model follows the code:
`packages/contracts/src/sessionSnapshot.ts:1397` says the first non-null tool output wins, but the
latest does (`SessionActivities.FirstOutputDoesNotWin`).

Where a property fails, a lemma shows an input, or says exactly when it holds, or both:

- hunks that start at the same line: `GitHunkTies.TwoInsertions` and `ReplaceThenInsert`; exact in
  `ApplyingExactly` and `RevertingExactly`;
- a line lost in joining: `GitHunkContent.OnlyLineIsNotPutBack`; exact in `RevertOnContent`;
- old and new files that differ in the final newline: `GitHunkContent.FinalNewlineStays`; exact in
  `ApplyGivesNewContent`;
- a checkpoint id created again with a low number: `SessionCheckpoints.RecreatedRowIsKeptTooLong`; exact in
  `CuttingEarlyIsHarmless`;
- a scroll event handled before a content change is notified:
  `ViewportRuns.ScrollBeforeNotifyLosesCorrection`; the correction itself is exact in `ContentKeepsOffset`;
- a negative write count: exact in `SocketFraming.FlushConserves`;
- a literal token in a graded tree: `GradeTokens.LiteralTokenCollides`; exact in `TrustedMeansClear`;
- normalising twice: `GradeTokens.SecondPassMergesIds`; exact in `SecondPassChangesNothing`;
- a leading byte order mark: `SocketFraming.LeadingMarkIsLost`;
- an id reused while in flight: `CorrelatorAccounts.ReusedIdLosesNotifications`; exact in
  `NotificationsAreConserved`;
- a file the allowlist calls strong-dead: exact in `DeadCode.StrongDeadMeaning`.

## Model

| member | source | states |
|---|---|---|
| GitHunks.ApplyToLines | packages/contracts/src/gitHunks.ts:158-162 | the descending splice loop; on placed hunks whose old starts differ it gives the top-to-bottom reading with every new side |
| GitHunks.RevertOnLines | packages/contracts/src/gitHunks.ts:179-184 | the revert loop over the selected hunks in descending new position |
| GitHunks.RevertingSubset | packages/contracts/src/gitHunks.ts:133-186 | reverting any subset on the fully patched lines equals applying only the other hunks to the old lines, and equals the top-to-bottom reading, for every patch without ties in either start; hunks may touch |
| GitHunks.RevertingEverything | packages/contracts/src/gitHunks.ts:172-186 | reverting all hunks gives the old lines back, again for every patch without ties |
| GitHunks.ApplyingSelected | packages/contracts/src/gitHunks.ts:49-58 | splicing any selected hunks bottom-up is the reading in which just those contribute their new side, when old starts differ |
| GitHunks.BackwardsIsEdited | packages/contracts/src/gitHunks.ts:133-142 | later splices never move earlier positions, zero-count index base included |
| GitHunks.FlippedReading | packages/contracts/src/gitHunks.ts:144-153 | patched lines with hunks turned round are again well placed, and read as the old lines with the complement applied |
| GitHunks.UnsplicedIsFlippedSplice | packages/contracts/src/gitHunks.ts:144-153 | reverting is applying with old and new sides exchanged |
| GitHunks.RevertIsApply | packages/contracts/src/gitHunks.ts:179-184 | reverting, sort and ties included, is applying the hunks turned round, on any lines |
| GitHunks.TouchingHunksAreUntied | packages/contracts/src/gitHunks.test.ts:10-23 | a patch with touching hunks, old lines 1 to 3 and 4 to 5, meets the two conditions |
| GitHunkTies.SplicedIsTurned | packages/contracts/src/gitHunks.ts:155-164 | what the apply loop computes for every placed list: hunks tied with an earlier one go in one by one behind its first old line |
| GitHunkTies.TurnedIsPatched | packages/contracts/src/gitHunks.ts:155-164 | that is the reading exactly when in every group of ties the pieces put in the wrong order commute |
| GitHunkTies.ApplyingExactly | packages/contracts/src/gitHunks.ts:155-164 | so applying any chosen hunks is the reading if and only if their ties agree |
| GitHunkTies.RevertingExactly | packages/contracts/src/gitHunks.ts:172-186 | and reverting any subset gives the other hunks' lines if and only if the chosen hunks' ties agree on the new side |
| GitHunkTies.UntiedAgree | packages/contracts/src/gitHunks.ts:158-162 | hunks whose starts all differ have no ties to agree on, so the exact conditions hold for them |
| GitHunkTies.TwoInsertions | packages/contracts/src/gitHunks.ts:158-162 | two insertions at one place come out last first, which is right exactly when they commute |
| GitHunkTies.ReplaceThenInsert | packages/contracts/src/gitHunks.ts:158-162 | an insertion behind a one-line replacement lands behind the first new line, which is right exactly when it commutes with the rest |
| GitHunkParser.ReadOneHunk | packages/contracts/src/gitHunks.ts:80-118 | the inner loop returns the two sides and the cursor of the body's reading |
| GitHunkParser.ParseUnifiedHunks | packages/contracts/src/gitHunks.ts:60-131 | terminates on every text; gives the hunks of the recursive reading, with index equal to position |
| GitHunkReading.ReadBodyMeaning | packages/contracts/src/gitHunks.ts:80-118 | in any text a hunk is its following lines up to the first header, the end, or the point where both counts are met; each side is what those lines contribute, unknown lines and notes nothing |
| GitHunkReading.OneBodyEnd | packages/contracts/src/gitHunks.ts:80-118 | there is only one such end |
| GitHunkParser.SpelledHeaderMatches | packages/contracts/src/gitHunks.ts:14-15 | every line spelled as a header, with any digit strings, omitted counts and trailing text, matches with those numbers |
| GitHunkParser.MatchedHeaderIsSpelled | packages/contracts/src/gitHunks.ts:14-15 | conversely a matching line is such a header and nothing else |
| GitHunkParser.ParseOfPrint | packages/contracts/src/gitHunks.ts:60-131 | printing hunks with any preamble, omitted counts of 1, headings and no-newline lines, and parsing, returns the same hunks |
| GitHunkParser.PrintThenParse | packages/contracts/src/gitHunks.ts:60-131 | every hunk list whose counts match its sides survives printing and parsing |
| GitHunkParser.ParsedHunksAreNewlineFree | packages/contracts/src/gitHunks.ts:92-116 | no parsed line contains a line break, for every input |
| GitHunkContent.JoinOfSplitLines | packages/contracts/src/gitHunks.ts:17-40 | joining what was split gives the content back, for every content |
| GitHunkContent.SplitOfJoinLines | packages/contracts/src/gitHunks.ts:17-40 | splitting what was joined gives the lines back exactly for rejoinable pairs |
| GitHunkContent.ApplyHunks | packages/contracts/src/gitHunks.ts:155-164 | content in, content out, over the parsed hunks |
| GitHunkContent.RevertHunksInContent | packages/contracts/src/gitHunks.ts:172-186 | reverts the parsed hunks whose index is listed |
| GitHunkContent.RevertOnContent | packages/contracts/src/gitHunks.ts:155-186 | apply then revert on file contents, without ties, gives the other hunks' result exactly under a condition on the old lines, the final newline, the last hunk, the line counts and the selection |
| GitHunkContent.RevertOnTiedContent | packages/contracts/src/gitHunks.ts:155-186 | with ties, when no line is lost in joining and the patch and the other hunks apply right, exactly when the reverted hunks' ties agree on the new side |
| GitHunkContent.LineBeforeMeaning | packages/contracts/src/gitHunks.ts:17-40 | the last of the patched lines, which decides whether one is lost in joining, can be read off the old lines and the hunks |
| GitHunkContent.OnlyLineIsNotPutBack | packages/contracts/src/gitHunks.ts:155-186 | deleting the only line of a file with a final newline and reverting that does not give the file back |
| GitHunkContent.ApplyGivesNewContent | packages/contracts/src/gitHunks.ts:155-164 | applying a patch to the old content gives the new content exactly when both agree on the final newline |
| GitHunkContent.FinalNewlineStays | packages/contracts/src/gitHunks.ts:155-164 | for two contents that differ in the final newline only, applying their patch without hunks gives the old one |
| GitHunkContent.RevertOnNewContent | packages/server/src/git/fillCommand.ts:208 | reverting any subset on the real new content gives the other hunks' lines with its final newline, so the wanted content exactly when both contents agree on it |
| GitHunkContent.PatchRoundTrip | packages/contracts/src/gitHunks.ts:60-186 | apply and revert end to end from a printed patch, with both conditions above; selecting all hunks aims at the old content itself |
| ScenarioPlayer.ConsumeKeepsFiltered | packages/qa-scenario/src/player.ts:189-201 | the seen filter keeps a subscriber's output a prefix of the steps above its start when a repeated or next step comes in |
| ScenarioPlayer.NextKeepsInv | packages/qa-scenario/src/player.ts:84-210 | the invariant survives every atomic step of every fiber, and a fiber dropped between two steps |
| ScenarioPlayer.RunsKeepInv | packages/qa-scenario/src/player.ts:66-227 | so it holds in every run |
| ScenarioPlayer.SubscriberReceivesPrefix | packages/qa-scenario/src/player.ts:178-203 | in every interleaving each subscriber has a gapless, repeat-free prefix of the steps above its fromSequence |
| ScenarioPlayer.SubscriberReceivesAll | packages/qa-scenario/src/player.ts:84-203 | all of them, once the cursor is at the end and its queue is empty |
| ScenarioPlayer.DrainedMeansEmitted | packages/qa-scenario/src/player.ts:95-98 | the drained signal is given only after every step, and nothing else, was emitted |
| PlayerControls.SeekToMeaning | packages/qa-scenario/src/player.ts:146-154 | from any reachable state, seekTo(k) run alone emits exactly the steps from the cursor up to and including k, moves the cursor behind them, drains at the end, and leaves playback paused with no driver |
| PlayerControls.StepOnceMeaning | packages/qa-scenario/src/player.ts:140-144 | stepOnce emits exactly the step at the cursor, if there is one, and leaves playback paused with no driver |
| PlayerControls.PauseMeaning | packages/qa-scenario/src/player.ts:135-138 | pause stops the driver, emits nothing and moves nothing |
| PlayerControls.PlayMeaning | packages/qa-scenario/src/player.ts:116-133 | play leaves one new driver, which run on alone emits every remaining step and drains |
| PlayerControls.SetRateMeaning | packages/qa-scenario/src/player.ts:156-162 | setRate stores the rate and restarts the driver exactly when playing |
| PlayerControls.ShutdownMeaning | packages/qa-scenario/src/player.ts:205-210 | shutdown stops the driver, ends exactly the subscribers' queues and forgets them |
| PlayerControls.ControlsEnd | packages/qa-scenario/src/player.ts:115-162 | every control that runs alone comes to an end |
| PlayerControls.OneEnd | packages/qa-scenario/src/player.ts:115-162 | and to one end only |
| PlayerControls.FromToMeaning | packages/qa-scenario/src/player.ts:150-153 | the emitted range is every index from the cursor on, in order, the bound left out |
| PlayerSubscribers.PullsDeliver | packages/qa-scenario/src/player.ts:189-203 | from any reachable state, pulling as often as elements wait leaves none and has delivered exactly the steps past the start |
| PlayerSubscribers.SubscribingDelivers | packages/qa-scenario/src/player.ts:183-203 | whoever subscribes at any moment and keeps pulling gets exactly the steps emitted so far past fromSequence and stays registered |
| SessionSnapshot.FoldWatermark | packages/contracts/src/sessionSnapshot.ts:63-72 | the snapshot's sequence is the largest seen, for any event order |
| SessionSnapshot.OldEventsChangeNothing | packages/contracts/src/sessionSnapshot.ts:1287-1289 | events at or below the watermark leave the snapshot alone |
| SessionSnapshot.ReplayIsIdempotent | packages/contracts/src/sessionSnapshot.ts:1283-1470 | replaying any run of events on its own result changes nothing |
| SessionSnapshot.ApplyKeepsHolder | packages/contracts/src/sessionSnapshot.ts:210-217 | a snapshot that holds a session holds it for good |
| SessionSnapshot.FoldStep | packages/contracts/src/sessionSnapshot.ts:1283-1470 | an event runs its branch exactly when it is newer than all before and of the held session |
| SessionSnapshot.OtherSessionsAreInvisible | packages/contracts/src/sessionSnapshot.ts:74-75 | dropping all other sessions' events leaves the final snapshot unchanged but for its sequence |
| SessionTurns.CloseMeaning | packages/contracts/src/sessionSnapshot.ts:1234-1253 | closing changes exactly the open turn that the event means, and only its status and end |
| SessionTurns.ObserveMeaning | packages/contracts/src/sessionSnapshot.ts:1255-1281 | a usage report changes exactly the open turn that it means |
| SessionTurns.NewTurn | packages/contracts/src/sessionSnapshot.ts:1295-1310 | a new message closes what is open and appends the only open turn |
| SessionTurns.ApplyKeepsTurns | packages/contracts/src/sessionSnapshot.ts:1283-1470 | each event keeps the turn invariant and only extends the turns |
| SessionTurns.TurnsMirrorMessages | packages/contracts/src/sessionSnapshot.ts:1180-1320 | in every run turn ids are distinct and equal the user message ids in order; only the last turn can be open |
| SessionTurns.ClosedTurnsAreFinal | packages/contracts/src/sessionSnapshot.ts:1199-1281 | no later event changes any field of a closed turn |
| SessionRows.TurnsMeaning | packages/contracts/src/sessionSnapshot.ts:1180-1310 | in every run the turns are those of the first messages with their ids: session, sequence and start from the message, status and end from the first later event that ends the turn, each usage field the latest value reported while it ran |
| SessionRows.EndOfMeaning | packages/contracts/src/sessionSnapshot.ts:1199-1253 | that end is the first later completion or cancellation that means the turn, or the next new message |
| SessionRows.UsersMeaning | packages/contracts/src/sessionSnapshot.ts:1295-1319 | in every run the user rows are those of the same messages in the same order, with their session, sequence and text |
| SessionTranscript.AppendIsMerge | packages/contracts/src/assistantMessageContent.ts:57-70 | appending a slice is merging runs of equal kind over all slices so far |
| SessionTranscript.MergeRunsShape | packages/contracts/src/assistantMessageContent.ts:51-70 | no two neighbouring parts share a kind |
| SessionTranscript.MergeRunsKeepsReply | packages/contracts/src/assistantMessageContent.ts:72-80 | the reply text is the concatenation of the text slices |
| SessionTranscript.MergeRunsKeepsText | packages/contracts/src/assistantMessageContent.ts:57-70 | merging keeps every character with its kind, in order |
| SessionTranscript.AssistantRowsAreFaithful | packages/contracts/src/sessionSnapshot.ts:140-208 | in every run each assistant row is the merge of its message's slices, with session and sequence of the first, and rows are strictly ordered by sequence |
| SessionTranscript.SlicesHaveARow | packages/contracts/src/sessionSnapshot.ts:144-184 | a message has an assistant row exactly when an admitted slice names it |
| SessionCheckpoints.RetainThenAdd | packages/contracts/src/sessionSnapshot.ts:419-460 | truncating before an addition does not change what is retained after it |
| SessionCheckpoints.RetainThenMap | packages/contracts/src/sessionSnapshot.ts:462-518 | nor before a readiness or revert update |
| SessionCheckpoints.CuttingEarlyIsHarmless | packages/contracts/src/sessionSnapshot.ts:412-518 | truncating to 500 at every event gives, at every point of the run, the list that sorting and truncating once would give, exactly when no event creates a retained id again with a number below that of a dropped row |
| SessionCheckpoints.RecreatedRowIsKeptTooLong | packages/contracts/src/sessionSnapshot.ts:412-460 | more than 500 creations with rising numbers, then the newest id again with the lowest number, is such an event |
| SessionCheckpoints.CheckpointsAreSortedAndUnique | packages/contracts/src/sessionSnapshot.ts:412-460 | in every run checkpoints are sorted by number, unique by id, and at most 500 |
| SessionFields.CheckpointsMeaning | packages/contracts/src/sessionSnapshot.ts:428-518 | in every run each checkpoint row shows the latest creation of its id, the latest readiness and revert reported since, and the sequence of the last of these |
| SessionFields.SessionMeaning | packages/contracts/src/sessionSnapshot.ts:210-370 | in every run the session record holds the latest value given for each field, option by option, since the session was last created |
| SessionActivities.ToolRowIsLatest | packages/contracts/src/sessionSnapshot.ts:1384-1413 | a tool row is the latest observation with the latest non-null output |
| SessionActivities.FirstOutputDoesNotWin | packages/contracts/src/sessionSnapshot.ts:121-138 | a second non-null output replaces the first, against the comment |
| SessionActivities.PendingIsUnanswered | packages/contracts/src/sessionSnapshot.ts:1414-1446 | an approval is pending exactly as last requested and not answered since |
| SessionActivities.ListsAreInOrder | packages/contracts/src/sessionSnapshot.ts:1384-1446 | in every run activities and pending approvals are listed in the order of their latest events |
| ResumingClient.ResumingStream.ConsiderEvent | packages/contracts/src/rpc.ts:1136-1150 | an event passes exactly when it is ahead of the cursor, which then moves to it |
| ResumingClient.ResumingStream.ExclusiveEvents | packages/contracts/src/rpc.ts:1152-1165 | what passes is increasing and between the old and the new cursor |
| ResumingClient.EmitsExactlyOnce | packages/contracts/src/rpc.ts:1167-1186 | under any drops, reconnects and replayed duplicates, what was emitted is the log between start and cursor, once and in order |
| ResumingClient.FoldOfEmitted | packages/contracts/src/rpc.ts:1136-1207 | folding the emitted part on a snapshot equals folding the whole log up to the cursor |
| ResumingClient.SnapshotTracksLog | packages/contracts/src/rpc.ts:1188-1207 | a snapshot of any prefix plus the stream equals the fold of the delivered log from empty, and of the whole log when caught up |
| ResumingClient.ReconnectDelivers | packages/contracts/src/rpc.ts:1167-1207 | after any run that has not failed, a reconnection that lasts, wherever its replay starts, delivers every log entry past the first cursor and brings the snapshot up to the whole log |
| Viewport.Controller.ApplyScrollAction | packages/transcript-viewport/src/controller.ts:44-72 | the host ends where it lets the action's target take it, clamped by a browser and exact on a plain host; the answer says whether it moved |
| ViewportRuns.OnlyCorrectionsAreClamped | packages/transcript-viewport/src/controller.ts:44-72 | of all targets a clamping host changes exactly the anchor corrections beyond the end of the content |
| Viewport.Controller.HandleScroll | packages/transcript-viewport/src/controller.ts:243-278 | refines the scroll transition |
| Viewport.Controller.ScheduleHandleScroll | packages/transcript-viewport/src/controller.ts:306-319 | refines the run's scroll event, coalesced or not |
| Viewport.Controller.RunScheduledScrollWork | packages/transcript-viewport/src/controller.ts:291-294 | refines the deferred scroll event |
| Viewport.Controller.NotifyContentChanged | packages/transcript-viewport/src/controller.ts:321-361 | refines the content-change transition |
| Viewport.Controller.ObserveResize | packages/transcript-viewport/src/controller.ts:466-483 | refines the resize transition, held back or not |
| Viewport.Controller.OnSend | packages/transcript-viewport/src/controller.ts:369-380 | refines the send transition |
| Viewport.Controller.OpenAt | packages/transcript-viewport/src/controller.ts:382-393 | refines opening at a row, and falls back to the live edge without one |
| Viewport.Controller.ScrollToTop | packages/transcript-viewport/src/controller.ts:395-405 | refines the jump to the top |
| Viewport.Controller.JumpToLatest | packages/transcript-viewport/src/controller.ts:363-367 | refines the jump to the live edge |
| Viewport.Controller.HandleWheel | packages/transcript-viewport/src/controller.ts:407-418 | refines the wheel event |
| Viewport.Controller.HandleKeydown | packages/transcript-viewport/src/controller.ts:424-438 | refines the key event |
| Viewport.Controller.HandleTouch | packages/transcript-viewport/src/controller.ts:420-422 | refines the touch event |
| Viewport.Controller.HandlePointerDown | packages/transcript-viewport/src/controller.ts:440-447 | refines the press on the scrollbar |
| ViewportRequests.UpwardIntentReleases | packages/transcript-viewport/src/controller.ts:407-438 | an upward wheel turn or PageUp, ArrowUp, Home ends released in every state, unread flag kept, anchor recorded, windows of 150 and 700 ms open |
| ViewportRequests.DownwardIntentKeepsFollow | packages/transcript-viewport/src/controller.ts:407-438 | any other wheel turn or paging key keeps follow, closes the upward window and opens the short one |
| ViewportRequests.TouchKeepsFollow | packages/transcript-viewport/src/controller.ts:420-447 | a touch or a press on the scrollbar only opens the short window |
| ViewportRequests.NoIntentChangesNothing | packages/transcript-viewport/src/controller.ts:424-447 | other keys and presses change nothing |
| ViewportRequests.JumpEndsAtEdge | packages/transcript-viewport/src/controller.ts:363-393 | jumping to the latest, and opening a row that is not there, end following at the live edge with nothing unread |
| ViewportRequests.SendEndsAtEdge | packages/transcript-viewport/src/controller.ts:369-380 | a send does too, closes both windows and waits for growth |
| ViewportRequests.OpenEndsNearRow | packages/transcript-viewport/src/controller.ts:382-393 | opening a row ends released with the row peek below the top, within the content |
| ViewportRequests.TopEndsAtTop | packages/transcript-viewport/src/controller.ts:395-405 | scrolling to the top ends released at 0 |
| ViewportRequests.ScrollReleasesExactly | packages/transcript-viewport/src/controller.ts:243-278 | away from the edge a handled scroll releases exactly while the short window is open and no scroll of our own is expected, and extends the windows on upward movement |
| ViewportRequests.ScrollAtEdge | packages/transcript-viewport/src/controller.ts:251-260 | at the edge it follows again with nothing unread, unless released within the upward window |
| ViewportRequests.CoalescedScrollWaits | packages/transcript-viewport/src/controller.ts:291-319 | a coalesced scroll is handled once, later |
| ViewportRequests.ContentReleasesExactly | packages/transcript-viewport/src/controller.ts:321-336 | a content change releases exactly inside the upward window, or inside the short one away from the edge |
| ViewportRequests.ContentFollowsToEdge | packages/transcript-viewport/src/controller.ts:337-361 | otherwise, while following, it ends at the live edge |
| ViewportRequests.ResizeIsContent | packages/transcript-viewport/src/controller.ts:466-483 | a resize is a content change unless notifications are held back and no send waits for this growth |
| ViewportRequests.NudgeIsRespected | packages/transcript-viewport/src/controller.ts:207-278 | after an upward nudge, growth noticed later leaves the view where the reader put it |
| ViewportRuns.WindowAfter | packages/transcript-viewport/src/controller.ts:160-172 | one step keeps, closes, opens or extends an intent window, and extends it only by upward scrolling inside it |
| ViewportRuns.WindowsChain | packages/transcript-viewport/src/controller.ts:160-278 | in every run an open window chains back to a real user-intent event with no send since |
| ViewportRuns.FollowLossHasAReason | packages/transcript-viewport/src/controller.ts:235-405 | follow is lost only by opening a row, scrolling to the top, upward intent, or a scroll or content change inside such a window |
| ViewportRuns.SendHoldsFollow | packages/transcript-viewport/src/controller.ts:369-380 | after a send no interleaving of scroll events, layout and content changes releases follow |
| ViewportRuns.SendFollowsFirstGrowth | packages/transcript-viewport/src/controller.ts:466-483 | the first resize that finds the height changed after a send ends at the live edge even when notifications are held back, whatever scroll events, layouts and held-back resizes come in between |
| ViewportRuns.PinIsNotMisread | packages/transcript-viewport/src/controller.ts:221-233 | for 120 ms after a pin that moved the view no burst of scroll events and layouts releases follow, even with an intent window open |
| ViewportRuns.UnreadOnlyWhileReleased | packages/transcript-viewport/src/follow.ts:62-138 | in every run the unread flag is up only while released |
| ViewportRuns.UnreadRaised | packages/transcript-viewport/src/controller.ts:337-356 | a content change raises it exactly when more than half a pixel was added below the anchor row |
| ViewportRuns.ContentKeepsOffset | packages/transcript-viewport/src/controller.ts:344-360 | a content change keeps the anchor row in place on screen exactly when the correction stays above 0 and, on a clamping host, before the end of the content |
| ViewportRuns.AnchorStaysPut | packages/transcript-viewport/src/controller.ts:321-361 | over any number of content changes while released the anchor row's screen offset is constant |
| ViewportRuns.ScrollBeforeNotifyLosesCorrection | packages/transcript-viewport/src/controller.ts:208-219 | a scroll event between layout and notification shifts the row by its whole displacement |
| ViewportRuns.ScrollReengages | packages/transcript-viewport/src/controller.ts:251-260 | a handled scroll takes follow up again exactly at the edge without upward intent |
| ViewportRuns.TraceContentVisibilityRemeasure | packages/transcript-viewport/src/contentVisibilityTrace.ts:30-65 | one frame for the start and one per height, each of the state after that many content changes |
| ViewportRuns.FollowingEndsAtEdge | packages/transcript-viewport/src/contentVisibilityTrace.ts:57-63 | while following with no window open every frame of any height sequence ends at the live edge |
| ViewportRuns.FollowIsNeverStranded | packages/transcript-viewport/src/contentVisibilityTrace.ts:20-65 | a frame strands the follower exactly when the threshold is below the shortfall of short content, so never for a threshold of 0 or more |
| Grade.TokensDiffer | packages/harness/src/grade.ts:119 | id tokens are injective in their number and never the timestamp token |
| Grade.NodeForward | packages/harness/src/grade.ts:149-205 | equal normal forms make the two walks' ids partners and the values agree under them |
| Grade.NodeBackward | packages/harness/src/grade.ts:134-205 | agreement under an injective renaming makes the normal forms equal at every point of the walk |
| Grade.AgreeingObjects | packages/harness/src/grade.ts:185-202 | agreeing key by key is agreeing position by position in sorted key order |
| Grade.EqualNormalForms | packages/harness/src/grade.ts:134-210 | two trees whose walks meet no literal token normalise alike if and only if they agree up to key order, timestamps and one injective renaming |
| Grade.RenamedTreesNormalizeAlike | packages/harness/src/grade.ts:207-210 | agreement makes normal forms equal even for trees that contain literal tokens |
| GradeTokens.TrustedMeansClear | packages/harness/src/grade.ts:134-210 | given a timestamp and enough ids, a tree normalises like exactly the clear trees it agrees with if and only if its walk meets no plain string that is the timestamp token or an id token it could produce there |
| GradeTokens.LiteralTokenCollides | packages/harness/src/grade.ts:154-163 | a literal token in the text normalises like a timestamp it does not agree with |
| GradeTokens.FixedPoints | packages/harness/src/grade.ts:134-210 | normalisation leaves a canonical tree alone exactly when its timestamps are the token and its ids are tokens numbered in walk order |
| GradeTokens.SecondPassChangesNothing | packages/harness/src/grade.ts:207-210 | normalising twice is normalising once exactly when the normal form is such a tree |
| GradeTokens.SecondPassMergesIds | packages/harness/src/grade.ts:134-147 | normalising twice can give two different ids one token |
| GradeFields.TextFieldMeaning | packages/harness/src/grade.ts:40-55 | two objects that differ in one plain string pass exactly when its field is one of the six id or seven timestamp fields |
| GradeFields.NumberFieldMeaning | packages/harness/src/grade.ts:40-48 | two that differ in one number pass exactly when its field is one of the seven timestamp fields |
| GradeFields.TimestampFieldMeaning | packages/harness/src/grade.ts:149-153 | in such a field every string and number passes for every other, and nothing else does |
| GradeFields.BlankIdIsText | packages/harness/src/grade.ts:84-92 | a blank string in an id field is compared as text |
| GradeWalk.WalkFinds | packages/harness/src/grade.ts:226-273 | no divergence exactly for equal canonical trees; otherwise the path leads to the reported values and everything earlier agrees |
| GradeWalk.AllKeysMeaning | packages/harness/src/grade.ts:255 | the walked keys are those of either object, in increasing order |
| GradeWalk.FirstDifferenceIsUnique | packages/harness/src/grade.ts:226-273 | there is only one path with that property |
| GradeWalk.NodeIsCanonical | packages/harness/src/grade.ts:185-202 | normal forms are canonical |
| GradeWalk.GradingIsAgreement | packages/harness/src/grade.ts:275-279 | no divergence is found exactly for values that agree up to renaming; else the report is the first difference of the normal forms |
| Utf8.DecodeOfEncode | packages/electrobun-qa/src/host/socket-server.ts:54-57 | decoding the encoding of any text gives it back, except a leading byte order mark |
| Utf8.ChunksDoNotMatter | packages/electrobun-qa/src/host/socket-server.ts:54-57 | two chunks decode like the one they make up, characters cut in between included |
| Utf8Errors.EncodingMeaning | packages/electrobun-qa/src/host/socket-server.ts:130 | the encoder produces the octets of section 3 of RFC 3629 |
| Utf8Errors.DecodesExactly | packages/electrobun-qa/src/host/socket-server.ts:54-57 | bytes decode to a text without replacement characters, nothing pending, exactly if they encode it: no overlong form and no surrogate gets through |
| Utf8Errors.StrayByteIsReplaced | packages/electrobun-qa/src/host/socket-server.ts:54-57 | a stray byte becomes one replacement character and touches neither neighbour |
| Utf8Errors.BrokenCharacterIsReplaced | packages/electrobun-qa/src/host/socket-server.ts:54-57 | a character cut short becomes one replacement character and what follows is read in full |
| SocketFraming.Connection.FlushPending | packages/electrobun-qa/src/host/socket-server.ts:145-158 | refines the flush of the held bytes |
| SocketFraming.Connection.WriteLine | packages/electrobun-qa/src/host/socket-server.ts:160-168 | refines queueing a line and flushing |
| SocketFraming.Connection.Receive | packages/electrobun-qa/src/host/socket-server.ts:179-204 | refines the data callback: the non-empty lines handed on and the rest kept |
| SocketFraming.Connection.Drop | packages/electrobun-qa/src/host/socket-server.ts:211-220 | a closed connection starts afresh |
| SocketFraming.FlushConserves | packages/electrobun-qa/src/host/socket-server.ts:153-157 | a flush keeps every byte exactly when the answer is not a negative count smaller than what is held |
| SocketFraming.FlushHandsOver | packages/electrobun-qa/src/host/socket-server.ts:145-158 | a flush offers all that is held: an answer n of 0 or more moves exactly the first n held bytes, or all of them |
| SocketFraming.CoveringWriteDelivers | packages/electrobun-qa/src/host/socket-server.ts:145-168 | a write or drain whose answer covers what is held leaves nothing behind, and the peer then has every line written so far |
| SocketFraming.WritesAreConserved | packages/electrobun-qa/src/host/socket-server.ts:139-168 | for every schedule of partial writes, bytes taken then pending are the encoding of all queued lines |
| SocketFraming.PeerReadsEverything | packages/electrobun-qa/src/host/socket-server.ts:118-168 | once nothing is pending the peer decodes the text of all lines |
| SocketFraming.ChunkingDoesNotMatter | packages/electrobun-qa/src/host/socket-server.ts:179-204 | for every chunking, lines handed on and the rest are the split of the whole stream |
| SocketFraming.RequestsArriveIntact | packages/electrobun-qa/src/host/socket-server.ts:179-204 | framed lines cut anywhere are handed on one by one with nothing left over |
| SocketFraming.EmptyLineIsPassedOver | packages/electrobun-qa/src/host/socket-server.ts:189-192 | an empty line anywhere in the stream changes nothing that is handed on |
| SocketFraming.LeadingMarkIsLost | packages/electrobun-qa/src/host/socket-server.ts:55 | a byte order mark at the head of the first line is swallowed |
| Correlator.KeysAreInjective | packages/harness/src/correlate.ts:35-36 | two request ids share a key only if they are equal, number and text kept apart |
| Correlator.Correlator.IngestAppLine | packages/harness/src/correlate.ts:57-73 | refines the request step |
| Correlator.Correlator.CompleteExchange | packages/harness/src/correlate.ts:79-100 | refines the completion step |
| Correlator.Correlator.AppendNotification | packages/harness/src/correlate.ts:102-124 | refines the notification step |
| Correlator.Correlator.IngestSidecarLine | packages/harness/src/correlate.ts:126-150 | refines the sidecar step with its order of decoders |
| Correlator.OrderAndMapAgree | packages/harness/src/correlate.ts:57-124 | in every run the ids in openOrder are exactly the keys of open |
| Correlator.OpenListMeaning | packages/harness/src/correlate.ts:64-72 | the reference list holds exactly the requests not answered since |
| Correlator.CurrentMeaning | packages/harness/src/correlate.ts:57-100 | the current request of a key is the open one that no later request with the key has replaced |
| Correlator.StateIsReference | packages/harness/src/correlate.ts:57-124 | in every run, reused ids included, the state is what the lines determine: the keys of the open requests in order, and for each key its current request with payload and notifications in arrival order |
| Correlator.HolderIsOldest | packages/harness/src/correlate.ts:102-124 | with distinct ids in flight the exchange that takes a notification is the oldest open request's |
| Correlator.CompletionMeaning | packages/harness/src/correlate.ts:79-100 | in every run a line returns a completion exactly when it answers a current request, and then with that request's command and payload and the notifications it took, in order |
| Correlator.CompletesAtMostOnce | packages/harness/src/correlate.ts:84-100 | the completions returned belong one by one to different requests and earlier lines that answer them, each with its request's own command and payload, that line as response, and the notifications taken by then in order |
| CorrelatorAccounts.HeardMeaning | packages/harness/src/correlate.ts:102-124 | a notification is heard exactly when it arrives while some request is unanswered |
| CorrelatorAccounts.NotificationsAreAccounted | packages/harness/src/correlate.ts:57-124 | in every run the notifications heard are those in the completions returned, those in the open exchanges and those a reused id threw away, each counted once |
| CorrelatorAccounts.NotificationsAreConserved | packages/harness/src/correlate.ts:57-124 | returned and open make up everything heard if and only if no request before arrived for an open key that had collected notifications |
| CorrelatorAccounts.DistinctIdsLoseNothing | packages/harness/src/correlate.ts:64-72 | distinct ids in flight are enough for that |
| CorrelatorAccounts.ReusedIdLosesNotifications | packages/harness/src/correlate.ts:64-72 | an id reused in flight discards what its exchange had collected |
| DeadCode.BuildAdjacency | scripts/dead-code/find-dead-code.ts:1208-1213 | the adjacency lists hold exactly the edges |
| DeadCode.Traverse | scripts/dead-code/find-dead-code.ts:1207-1236 | terminates and returns exactly the nodes with a path from some root |
| DeadCode.RootPathsByKind | scripts/dead-code/find-dead-code.ts:1256-1265 | the paths of the roots of the given kinds, in order |
| DeadCode.ReachOfIsOk | scripts/dead-code/find-dead-code.ts:1329-1340 | each of the six sets holds exactly the files with a path from roots of its kinds, the direct one without edges out of barrels |
| DeadCode.AnalyzeDeadCode | scripts/dead-code/find-dead-code.ts:1304-1446 | the listed candidates are the classification of every file by those six sets |
| DeadCode.AnyRootIsSomeKind | scripts/dead-code/find-dead-code.ts:1316-1327 | the four groups of kinds together are all roots |
| DeadCode.StrongDeadMeaning | scripts/dead-code/find-dead-code.ts:1364-1445 | a strong-dead file has a path from a root exactly when the allowlist calls it strong-dead |
| DeadCode.UnreachableSourceIsReported | scripts/dead-code/find-dead-code.ts:1402-1445 | an unreachable source file that no earlier rule claims is reported strong-dead |
| DeadCode.BarrelOnlyMeaning | scripts/dead-code/find-dead-code.ts:1384-1401 | a barrel-only file is reachable from production, and only through a barrel |
| DeadCodeClasses.ListedMeaning | scripts/dead-code/find-dead-code.ts:1355-1446 | a file is listed with a class exactly when the facts claim it so, or nothing claims it and where it can be reached from gives that class |
| DeadCodeClasses.ProductionReachableMeaning | scripts/dead-code/find-dead-code.ts:1402-1410 | unclaimed, production-reachable exactly if some production root reaches it and not through barrels only |
| DeadCodeClasses.ExportBarrelOnlyMeaning | scripts/dead-code/find-dead-code.ts:1384-1401 | unclaimed, export-barrel-only exactly if it is a source file, no barrel and not used from one, that production reaches but no export and no path around the barrels |
| DeadCodeClasses.ScriptOnlyMeaning | scripts/dead-code/find-dead-code.ts:1411-1419 | unclaimed, script-only exactly if a script root reaches it and no production root |
| DeadCodeClasses.TestOnlyMeaning | scripts/dead-code/find-dead-code.ts:1420-1428 | unclaimed, test-only exactly if a test root reaches it and neither of those |
| DeadCodeClasses.StaticRootMeaning | scripts/dead-code/find-dead-code.ts:1429-1437 | unclaimed, static-root exactly if none of those reaches it and an asset root does or its path is static |
| DeadCodeClasses.ClaimedMeaning | scripts/dead-code/find-dead-code.ts:1355-1383 | a claimed file has the class of the first claim: skill, allowlist, generated |
| DeadCodeClasses.RootsMeaning | scripts/dead-code/find-dead-code.ts:1304-1327 | the roots are those collected and every file the allowlist matches |
| DeadCodeClasses.AnswerIsClassified | scripts/dead-code/find-dead-code.ts:1355-1446 | the answer lists exactly the files that have a class, each once and in order |
| DeadCodeClasses.OneClass | scripts/dead-code/find-dead-code.ts:1355-1446 | no file has two classes |
| RebuildWave.ChainMeaning | scripts/rebuild-wave.ts:51-65 | a chain holds unfinished ids, each blocked by the one before |
| RebuildWave.LongestThroughBlockers | scripts/rebuild-wave.ts:57-62 | no chain to an id is longer than one more than the chains to its blockers |
| RebuildWave.CachedIsFinal | scripts/rebuild-wave.ts:53-55 | on an acyclic plan a memo entry that is found is never one still being computed |
| RebuildWave.Waves.Chain | scripts/rebuild-wave.ts:51-65 | ends on every plan with a real chain to the id; on an acyclic plan with a longest one |
| RebuildWave.Waves.LongestBlocker | scripts/rebuild-wave.ts:56-61 | the loop over the blockers |
| RebuildWave.Waves.CriticalPath | scripts/rebuild-wave.ts:66-70 | on an acyclic plan, at least as long as every chain to a ticket |
| StableSort.SortPermutes | packages/contracts/src/gitHunks.ts:158 | the library sort the hunks and checkpoints rely on keeps every element |
| StableSort.SortSorts | packages/contracts/src/sessionSnapshot.ts:419-422 | it sorts |
| StableSort.SortIsStable | packages/contracts/src/gitHunks.ts:180 | it keeps elements of equal key in order |

## Left out

- Effect runtime: fibers, streams, layers, timers and schema decoding appear only as the atomic steps and decoded values they produce.
- Server projections: the comments that name them are not checked; SQLite persistence is not part of this model.
- Snapshot branches for voice, git, terminal, skills, MCP, settings, review and preconnection: plain field replacement; they advance the watermark and leave the modelled fields alone. Terminal, voice, git and settings are not filtered by session and are outside the isolation result.
- Token and thought text: the non-empty check happens in the decoder, before the fold.
- ResumingClient.SnapshotTracksLog: the log only grows during a run; sessions deleted from the log while a client is connected are not modelled, holes that are already there are.
- Pauses: the 10 ms wait before reconnecting, playback delays and rates are scheduling and change no result.
- GitHunkParser.MatchedHeaderIsSpelled: numbers are unbounded, so the rounding of start lines beyond 2^53 is not modelled.
- GitHunks.RevertingSubset: the hunks must match the old lines, lie in order and have consistent new positions, as `diff -U` prints them; matching a patch against foreign content is not checked by the code either. Ties are settled by `GitHunkTies.RevertingExactly`.
- GitHunkContent.RevertOnContent: a patch that has ties and also loses an empty last line, or everything, in joining is the one case without an exact condition on contents; its lines are settled by `GitHunkTies.RevertingExactly`, and the real new content by `GitHunkContent.RevertOnNewContent`.
- GitHunkContent.ApplyGivesNewContent: the marker "\ No newline at end of file" is read and ignored, as the code does, so the final newline is always the one of the content passed in.
- revertHunkInContent, the one-index form, is the list form with one element.
- Viewport.Controller.HandleScroll: the two change callbacks, custom metrics readers and the send hook are outputs or caller code; one clock reading stands for the one or two that a handler takes.
- Viewport.Controller.ScheduleHandleScroll: the frame and the time-out are one event, whichever comes first; listener registration and teardown are left out.
- Grade.EqualNormalForms: UUID, prefix, ISO date and blank checks are uninterpreted predicates on the value and the field; numbers are reals.
- GradeTokens.TrustedMeansClear: compares with clear trees only, because next to a tree that itself contains a literal token any tree with a timestamp or an id goes wrong.
- Grade reports, skip reasons and counts: texts and sums over results that are proved.
- GradeWalk.WalkFinds: trees are canonical, as normalisation produces them, so structural equality is equality.
- Utf8.DecodeOfEncode: texts hold scalar values only; lone surrogates, which the encoder replaces, are not modelled.
- SocketFraming.Connection.Receive: data that arrives as a string instead of bytes is not modelled; request handling and the order in which answers come back are any schedule.
- Correlator.KeysAreInjective: numeric ids are integers.
- Correlator.Correlator.IngestSidecarLine: time-outs are not modelled, so alignment across them is not claimed.
- DeadCode.AnalyzeDeadCode: edges, roots, path patterns, allowlist matches and barrel consumption are inputs; the reason texts and the deleted files from git are left out. The export cache behind barrel consumption can be incomplete on cycles.
- RebuildWave: reading ticket files, the ready and waiting lists and printing.
- Port hashing, colours, output caps, timelines, secrets redaction, the shell, updater and website: formatting, one-line formulas, or input and output.
