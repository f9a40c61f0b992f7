# AI virtual teaching platform: models and proofs

A Dafny 4.11 model of the parts of the platform where mistakes are hard to see by reading one
function: the protocol that creates and deletes virtual machines, the bookkeeping of enrollments,
chat and token quota, the inline text scanner with its printer, the event-stream parser, the
conversion of Markdown to lesson blocks, the renumbering of course drafts, and the editor's save
queue and history. `dafny verify dfyconfig.toml` checks everything.

## How the project is organised

- **Virtual machines.** `Workspace` is a state machine with one step per SQL statement or
  transaction, per effect inside Labs and per Labs answer; every request, background task and sweeper
  is a process with its own program counter, and processes interleave and crash freely.
  A step is one write and one move of a process. `WorkspaceRuns` proves what holds of all runs,
  `WorkspaceSafety` what holds as long as certain races do not happen, `WorkspaceRaces` and
  `WorkspaceDeletions` that exactly these races break it (`WorkspacePaths` builds the runs),
  `WorkspaceGuards` which guards rule them out, `WorkspaceResets` what a restart does to machines,
  `WorkspaceOutcomes` what each request and task achieves when nothing else runs in between, and `WorkspaceService` holds the methods themselves,
  proved to be runs of the state machine.
  `LabNames` is the text form of a VM name.
- **Enrollments, chat and quota.** `Learning` has one step per transaction; a chat request spans two or
  three, with anything in between. `LearningHistory`, `LearningOnce`, `ReadingPointers`, `ChatRows` and
  `QuotaConservation` prove properties of all runs, `LearningOutcomes` and `ChatOutcomes` what each
  transaction does to the rows; `LearningService` holds the methods, proved to
  take exactly these steps. `LearningState`, `TokenWeights` and `ProgressRemap` are the pure parts.
- **Inline text.** `InlineScanner` and `InlinePrinter` are the two sides, `ScannerLoops` and
  `PrinterLoops` their loops, `ScannerProperties` is about the budget, `ScannerKeeps` about what is left of any text,
  `InlinePrinted` about what is written, `InlineRoundTrip` and
  `InlineTheorems` prove the round trip and `InlineLimits` where exactly it ends.
- **Event streams.** `SseStream` is the parser, `SseReading` says what it reads, `SseProperties`, `SseBlocks` and `SseLines` are about
  chunks, `SseFrames` about what the controller prints.
- **Markdown conversion.** `LessonConversion` (trees, splitting, units), `LessonConverter` (blocks),
  `LessonBodies` (the blocks of each kind of node) and `MarkdownToBlocks` (the methods).
- **Drafts.** `DraftOrder` (positions under a unique constraint), `DraftRows` and `DraftPlaces`
  (lesson rows and the requested order) and `DraftContent` (the methods, row write by row write).
- **Editor.** `Autosave`, `EditorState`, `EditorEdits` and `EditorProperties`.
- `Options` and `Text` are shared.

## Findings

- The two places that act on a "VM is missing" answer check only the row's status
  (`apps/api/src/workspace/workspace.service.ts:710-789`). `StaleMissingIsSafeIff` says exactly when acting on an old answer loses no VM.
- Two `create` or `start` calls can come to hold the same provision generation, because the row is
  read again after the update without comparing generations (`apps/api/src/workspace/workspace.service.ts:175-183`). If the provision
  row of the first was cleaned up before the second reserves, a VM can lose its owner:
  `SecondReservationIsSafeIff` says exactly when, `VmsCanBeLost` that it happens.
- The same race lets a cleaner that stalled after claiming the first row delete the VM that the second
  request has meanwhile attached (`apps/api/src/workspace/workspace.service.ts:402-406` deletes whatever the row says by then):
  `SecondReservationSparesIff` says exactly when, `VmInUseCanBeDeleted` that it happens, although no VM
  loses its owner. Comparing the generation, and the `labId` in the two updates above, removes all
  these races (`GuardsSuffice`).
- A line of two or more carriage returns between other lines can end a frame or not, depending on
  the chunks; a carriage return at the end of any other line never matters.
- An inline code span with a backtick at an end, code right after code, and emphasis right after a
  star do not survive printing and scanning.
- A lesson slug of the form `reorder-<draft>-<lesson>` passes the slug pattern and can make every
  reorder of its draft fail; the transaction is rolled back, so nothing is damaged.
- The autosave queue starts with `saved = 0`, so a first ready candidate with revision 0 is never
  sent; `AutosaveLosesNothingIff` shows that this is the only way to lose an edit. The editor's own
  revisions start at 1.

## Assumptions

- Labs creates the VM under the requested name, and reports a VM missing only when it is not alive.
  A POST that was sent may create its VM at any later time or never.
- Workspace ids are never reused and hold no dash; `DashedIdsCollide` shows why. Row ids handed out
  by the database, enrollment ids and block ids are fresh.
- Transactions that lock the Enrollment or Course row are atomic. Token weights are non-negative
  reals.
- Published versions hold at least one lesson, no content id twice and no empty one; the publish
  checks and the slug pattern see to that.
- Drafts hold at most 1,000,000 modules and lessons (`POSITION_OFFSET`), which renumbering relies on.
- The tree of a Markdown document follows the content model of the parser: images occur in phrasing
  content only.

## Model

| member | source | states |
|---|---|---|
| WorkspaceRuns.RowsOnlyMoveForward | apps/api/src/workspace/workspace.service.ts:154-219 | In all runs `provisionGeneration` never decreases, RESETTING is left only by deletion with its `labId` unchanged, deleted ids do not return, and RUNNING or STOPPED implies a `labId`. |
| WorkspaceRuns.LateReservationsAreCurrent | apps/api/src/workspace/workspace.service.ts:221-287 | In all runs, every step after a restart that reserves a name, for the first time or again, does so for the generation its enrollment has at that moment, which is no older. |
| WorkspaceRuns.OldCompletionsLeaveTheRow | apps/api/src/workspace/workspace.service.ts:289-386 | A background completion changes a workspace row only while that row is CREATING with exactly the provision generation it was started for. |
| WorkspaceRuns.ClaimedIsNeverAttached | apps/api/src/workspace/workspace.service.ts:326-433 | In all runs attachment and cleanup never both win: once a row is claimed as CLEANUP its VM never becomes the `labId` of a workspace as long as the name is not reserved again. |
| WorkspaceDeletions.ClaimedStaysUnattachedIff | apps/api/src/workspace/workspace.service.ts:229-287 | And exactly then: a step keeps a claimed VM from being attached in all runs that leave the name alone if and only if it does not reserve the name. |
| WorkspaceSafety.NoVmIsEverLost | apps/api/src/workspace/workspace.service.ts:221-485 | In every state that any fenced run reaches, every VM that is alive in Labs, or whose POST may still create it, has a provision row or is the `labId` of an existing workspace, however processes interleave, crash, time out or answer late, and even when names are reserved again. |
| WorkspaceSafety.RunKeepsInv | apps/api/src/workspace/workspace.service.ts:154-485 | Every fenced interleaving keeps the invariant that ties rows, tombstones, POSTs, VMs and the program counters of all running requests, tasks and sweepers together. |
| WorkspaceRaces.FencedIsExact | apps/api/src/workspace/workspace.service.ts:154-485 | For every step from every state of the invariant: no VM can be lost in any fenced continuation if and only if the step is fenced. So this hypothesis cannot be weakened at any step. |
| WorkspaceRaces.StaleMissingIsSafeIff | apps/api/src/workspace/workspace.service.ts:710-789 | `markVmMissing` and `rebuildMissingVm` test only the status of the row. Acting on an old "missing" answer loses no VM in any continuation if and only if the VM the row carries now is dead too. |
| WorkspaceRaces.SecondReservationIsSafeIff | apps/api/src/workspace/workspace.service.ts:229-287 | Reserving a name a second time loses no VM in any continuation if and only if no process stands before the attach transaction of that name, nor between reading its row as settled and dropping it. |
| WorkspaceSafety.RowsLeaveOnlyWhenSettled | apps/api/src/workspace/workspace.service.ts:326-433 | A provision row disappears only after its POST was answered, and then either this very step attached its VM or the row was claimed and its VM is gone; in all runs that reserve old names with that care, whatever is declared missing. |
| WorkspaceRaces.CarefulIsExact | apps/api/src/workspace/workspace.service.ts:326-433 | Rows leave only when settled, in all such continuations of a step, if and only if the step takes that care itself. |
| WorkspaceDeletions.DeletesSpareWorkspacesInUse | apps/api/src/workspace/workspace.service.ts:388-485 | No step of the service deletes a VM that is the `labId` of a workspace, unless that workspace is RESETTING, in all runs that reserve no name again while a cleaner stands between claiming a row of that name and its DELETE. |
| WorkspaceDeletions.SparingIsExact | apps/api/src/workspace/workspace.service.ts:388-485 | And exactly in those: a step keeps workspaces in use safe from deletion in all such continuations if and only if it obeys that condition. |
| WorkspaceDeletions.SecondReservationSparesIff | apps/api/src/workspace/workspace.service.ts:229-287 | So reserving a name a second time endangers no VM in use if and only if no cleaner is about to delete the VM of that name. |
| WorkspaceRaces.TwoTicketsAreReachable | apps/api/src/workspace/workspace.service.ts:154-219 | A run that breaks no rule reaches a state in which a second reservation is about to happen while the first task is about to attach. |
| WorkspaceRaces.VmsCanBeLost | apps/api/src/workspace/workspace.service.ts:154-287 | Hence a run of the code from the empty system after which a VM has no owner. |
| WorkspaceDeletions.VmInUseCanBeDeleted | apps/api/src/workspace/workspace.service.ts:388-433 | A run of the code from the empty system, in which no VM is lost, whose last step is a cleaner deleting the VM of a RUNNING workspace. |
| WorkspaceGuards.GuardsSuffice | apps/api/src/workspace/workspace.service.ts:158-183 | If the two updates after a "missing" answer also test the `labId`, and a request goes on only under the provision generation its own update wrote, then no name is ever reserved twice, no VM is lost, no row leaves unsettled and no VM in use is deleted: with these three guards on rows nothing is left to assume. |
| WorkspaceResets.RestartResetsTheMachine | apps/api/src/enrollments/enrollments.service.ts:199-237 | A step that raises the generation of an enrollment raises it by one and leaves it inactive; its workspace row is then RESETTING and among the rows the sweeper takes now, with its `labId` unchanged, and every other workspace row is as before. |
| WorkspaceResets.RestartIsPossible | apps/api/src/enrollments/enrollments.service.ts:199-237 | For every enrollment such a step exists. |
| WorkspaceResets.VmsBelongToTheGeneration | apps/api/src/enrollments/enrollments.service.ts:199-237 | In all runs the VM of a workspace that is not RESETTING was reserved for the generation its enrollment has now. |
| WorkspaceOutcomes.CreateCreates | apps/api/src/workspace/workspace.service.ts:154-219 | Left alone, a learner of an active course without a machine gets one: a RUNNING row with its first VM, live, and no provision row left. |
| WorkspaceOutcomes.CreateRecovers | apps/api/src/workspace/workspace.service.ts:163-183 | Left alone, a failed machine is created anew and runs on the VM of the next provision generation. |
| WorkspaceOutcomes.StartRebuilds | apps/api/src/workspace/workspace.service.ts:746-789 | So does a stopped one whose VM Labs reports missing. |
| WorkspaceOutcomes.StartStarts | apps/api/src/workspace/workspace.service.ts:545-594 | A start that Labs carries out makes the STOPPED row RUNNING and changes nothing else. |
| WorkspaceOutcomes.StopStops | apps/api/src/workspace/workspace.service.ts:640-679 | A stop that Labs carries out makes the RUNNING row STOPPED and changes nothing else. |
| WorkspaceOutcomes.StopOfMissingFails | apps/api/src/workspace/workspace.service.ts:710-724 | A stop that finds the VM missing leaves an ERROR row. |
| WorkspaceOutcomes.CreateRefuses | apps/api/src/workspace/workspace.service.ts:154-161 | No machine is created for an inactive course, and one that has not failed is handed back as it is. |
| WorkspaceOutcomes.OutdatedRequestResets | apps/api/src/workspace/workspace.service.ts:229-254 | A request whose learner restarted meanwhile reserves nothing and hands the row it was creating to the sweeper. |
| WorkspaceOutcomes.FailedPostLeavesError | apps/api/src/workspace/workspace.service.ts:289-325 | A POST that fails leaves an ERROR row if the row still awaits it, and keeps the provision row either way. |
| WorkspaceOutcomes.LateAnswerCleansUp | apps/api/src/workspace/workspace.service.ts:326-386 | A POST that is answered when its row no longer awaits it attaches nothing; its own VM and provision row are gone at the end. |
| WorkspaceOutcomes.PollExpires | apps/api/src/workspace/workspace.service.ts:52-84 | A row that has been CREATING for more than five minutes becomes an ERROR row when polled, and not before. |
| WorkspaceOutcomes.ResetResets | apps/api/src/workspace/workspace.service.ts:437-485 | A reset is put off while the creation may still settle; otherwise it deletes the attached or first VM and then the row, or, if Labs fails, tries again a minute later. |
| WorkspaceOutcomes.ResetSparesOthers | apps/api/src/workspace/workspace.service.ts:437-446 | A machine that is not RESETTING is not touched by a reset. |
| WorkspaceOutcomes.CleanupCleansUp | apps/api/src/workspace/workspace.service.ts:388-435 | A cleanup claims the row and deletes the VM; a settled row goes, an unsettled one is looked at again after an hour, and after a failure of Labs it is tried again after a minute. |
| WorkspaceOutcomes.EnrollmentsAreSwitched | apps/api/src/enrollments/enrollments.service.ts:91-114 | Enrolling switches an enrollment on and leaving it switches it off, both without touching its generation or any machine. |
| WorkspaceOutcomes.EveryStepStamps | apps/api/src/workspace/workspace.service.ts:154-287 | In all runs a row becomes CREATING only under the present time and a provision generation of its own, RUNNING only under the VM of that generation or the one it had, and a provision row appears only together with an open POST, due 210 seconds later. |
| LabNames.LabNamesDiffer | apps/api/src/workspace/workspace.service.ts:221-228 | The VM name determines the workspace and the provision generation, when workspace ids hold no dash. |
| WorkspaceService.WorkspaceService.CleanupProvision | apps/api/src/workspace/workspace.service.ts:388-435 | The method as coded, with arbitrary other code at each of its four awaits, is a run of the state machine. |
| WorkspaceService.WorkspaceService.ProvisionInBackground | apps/api/src/workspace/workspace.service.ts:289-386 | The same for the background task: it ends with the VM attached to a RUNNING workspace, or must clean it up, or has failed the attempt. |
| WorkspaceService.WorkspaceService.SweepResets | apps/api/src/workspace/workspace.service.ts:487-523 | At a fixed clock one sweep attempts min(10, n) of the n due resets and min(10, m) of the m due clean-ups, and none of them is due afterwards, even when every delete fails. |
| WorkspaceService.WorkspaceService.SweepRepeatedly | apps/api/src/workspace/workspace.service.ts:487-523 | Sweep after sweep at a fixed clock: after ceil(n / 10) of them every one of the n due rows of a table was in one of the batches, and nothing is due any more, whatever Labs answers. |
| WorkspaceService.EveryDueRowIsAttempted | apps/api/src/workspace/workspace.service.ts:487-523 | The same for any series of batches of at most ten. |
| LearningHistory.PairDeterminesState | apps/api/src/enrollments/enrollments.service.ts:126-271 | Over any run the pair (generation, progressRevision) of an enrollment only grows lexicographically, and as long as it is the same the learning state is the same. |
| LearningHistory.SnapshotsAreExact | apps/api/src/enrollments/enrollments.service.ts:527-587 | A snapshot holds exactly the state its enrollment had at the recorded generation and revision, whether the snapshot was taken before or after one looks. |
| LearningOnce.RestartsAndCompletionsTakeEffectOnce | apps/api/src/enrollments/enrollments.service.ts:152-244 | The generation equals the number of accepted restart requests, one for each generation; each generation has at most one COMPLETED snapshot: the current one exactly when `completedAt` is set, a past one exactly when it was set in the snapshot of the restart that ended it. |
| LearningOnce.RestartIsIdempotent | apps/api/src/enrollments/enrollments.service.ts:164-186 | Whatever happens after an accepted restart, sending it again changes nothing and is answered as a replay, and a different command under its request id is refused. |
| LearningOnce.OneActivityPerLesson | apps/api/src/enrollments/enrollments.service.ts:382-418 | At most one LESSON activity per generation and lesson, present exactly when the lesson was ever completed in that generation, however often it is unmarked. |
| LearningOutcomes.CompletionMeans | apps/api/src/enrollments/enrollments.service.ts:396-433 | A completion marks or unmarks its lesson and no other, under the next revision. The course is completed from then on if and only if it was before or every lesson of the latest version is marked now; the COMPLETED snapshot is stored in exactly the step that completes it, the activity in the one that completes the lesson for the first time. |
| LearningOutcomes.CompletionIsTakenIff | apps/api/src/enrollments/enrollments.service.ts:353-395 | In reachable states a completion command is refused exactly for the generation, the activity, the version, a lesson that is not in it, or the revision of a change; the unique constraint on COMPLETED snapshots never fires. |
| LearningOutcomes.CompletedSnapshotsMarkEveryLesson | apps/api/src/enrollments/enrollments.service.ts:400-433 | After any run the state of every COMPLETED snapshot marks each lesson of the version it names, which is one of the versions of its course. |
| LearningOutcomes.ReadingMeans | apps/api/src/enrollments/enrollments.service.ts:448-460 | A reading command moves the pointer to its lesson under the next revision, exactly when the fence, the version and the lesson allow it, and changes nothing else. |
| LearningOutcomes.SnapshotMeans | apps/api/src/enrollments/enrollments.service.ts:547-585 | A manual snapshot stores generation, revision, version and state as they are, once for each request, and changes nothing else. |
| LearningOutcomes.RestartMeans | apps/api/src/enrollments/enrollments.service.ts:164-233 | A restart stores the present state under its request, starts the next generation empty, inactive and on the newest version, makes the other courses of the user inactive, and removes exactly the chat rows of the enrollment. |
| LearningOutcomes.EnrollMeans | apps/api/src/enrollments/enrollments.service.ts:91-114 | Enrolling makes the row of user and course active on the newest version, or adds an empty one, makes the other courses of the user inactive, and touches no other row. |
| LearningOutcomes.OneActivePerUser | apps/api/src/enrollments/enrollments.service.ts:91-114 | After any run a user has at most one enrollment for each course and at most one that is active. |
| LearningOutcomes.PublishMeans | apps/api/src/enrollments/enrollments.service.ts:677-708 | A publish adds the version to its course, and moves exactly the pointers at removed lessons: each to the nearest later lesson, by position, that is retained, or else to the last of the new version. |
| ReadingPointers.PointersAreAlwaysValid | apps/api/src/enrollments/enrollments.service.ts:677-708 | In every reachable state each reading pointer is empty or a lesson of the latest published version, across publishing, reading, completing, enrolling and restarting. |
| ReadingPointers.RemapLands | apps/api/src/enrollments/learning-state.ts:74-82 | A pointer into the old version ends up where the remap leads, inside the new version. |
| ProgressRemap.RemapRemovedLessons | apps/api/src/admin/progress-remap.ts:1-20 | The loop fills the map whose keys are the removed lessons and whose values are the next retained lesson of the old order, or the last of the new one. |
| ProgressRemap.RemapIsTotal | apps/api/src/admin/progress-remap.ts:1-20 | Exactly the removed lessons are remapped, each to a lesson of the new version. |
| ProgressRemap.MonotoneIff | apps/api/src/admin/progress-remap.ts:1-20 | Following the remap keeps the order of pointers if and only if the retained lessons keep their relative order. |
| ChatRows.ChatRowsAreIsolated | apps/api/src/chat/chat.service.ts:360-425 | Every chat row carries the current generation of its enrollment, a request has at most one USER and one ASSISTANT row, and no ASSISTANT row stands without its USER row. |
| ChatRows.AcceptedOnce | apps/api/src/chat/chat.service.ts:366-384 | A request that was accepted once is refused from then on, in later generations too. |
| ChatRows.RepliesAreNeverLost | apps/api/src/chat/chat.service.ts:537-590 | The reply to an accepted request is saved if its generation is still current and refused as stale otherwise; it never meets another row of its own. |
| ChatOutcomes.QuestionIsStored | apps/api/src/chat/chat.service.ts:360-425 | A question is stored, and its reply awaited, in the step that accepts it; it is refused exactly for the generation, the activity, a repeated request, the version or a lesson that is not in it. |
| ChatOutcomes.ReplyIsStored | apps/api/src/chat/chat.service.ts:537-562 | The reply to an awaited question is stored with its usage exactly while the generation is current and active; afterwards nothing is stored and the usage is kept to be charged. |
| ChatOutcomes.FallbackIsStored | apps/api/src/chat/chat.service.ts:513-535 | The fallback text is stored, without usage, under the same condition. |
| ChatOutcomes.LateReplyIsCharged | apps/api/src/chat/chat.service.ts:563-586 | A refused reply is charged to its learner with one ledger row, if anything is due, and with none of any other kind. |
| QuotaConservation.RepliesAreCountedOnce | apps/api/src/chat/chat.service.ts:548-590 | The metered replies of a user are, as a multiset, its chat rows, the replies settled by restarts, the late replies in the ledger and those that were free; no request is metered twice, and each ledger row is the rounded cost of its replies. |
| QuotaConservation.ChargesStayClose | apps/api/src/enrollments/enrollments.service.ts:213-233 | With W the total hits, misses and outputs of all metered replies of a user, each times the weight of its own column, and k the number of its negative ledger rows, W <= charged < W + k + 1 in every reachable state. |
| QuotaConservation.RestartCostsAtMostOne | apps/api/src/enrollments/enrollments.service.ts:213-233 | One restart lowers the balance of its user by exactly 0 or 1, and of nobody else. |
| TokenWeights.WeightOfSum | apps/api/src/token-usage/domain/token-weights.ts:12-21 | Summing the token columns first gives the sum of the costs of the single replies, before the one rounding. |
| TokenWeights.ConsumedIsByColumn | apps/api/src/token-usage/domain/token-weights.ts:12-21 | What is charged is the hits times the hit weight, plus the misses times the miss weight, plus the outputs times the output weight, rounded up once. |
| TokenWeights.OneTokenCosts | apps/api/src/token-usage/domain/token-weights.ts:12-21 | One token of each column costs exactly the weight of that column. |
| LearningService.Service.Enroll | apps/api/src/enrollments/enrollments.service.ts:91-104 | The row updates of an enrollment take exactly the step the theorems are about. |
| LearningService.Service.Restart | apps/api/src/enrollments/enrollments.service.ts:126-244 | The restart transaction, with its loops over rows, takes exactly that step, and so do its replays and refusals. |
| LearningService.Service.SetLessonProgress | apps/api/src/enrollments/enrollments.service.ts:338-447 | The completion branch takes exactly that step: revision, activity and COMPLETED snapshot together. |
| LearningService.Service.SetReadingPosition | apps/api/src/enrollments/enrollments.service.ts:448-467 | The reading branch takes exactly that step. |
| LearningService.Service.CreateSnapshot | apps/api/src/enrollments/enrollments.service.ts:527-587 | Manual snapshots take exactly that step. |
| LearningService.Service.RemapPublishedReadingPointers | apps/api/src/enrollments/enrollments.service.ts:677-708 | Locking and updating the affected rows one after the other, in any order, equals remapping them all at once. |
| LearningService.Service.Publish | apps/api/src/admin/course-publish.service.ts:78-166 | The publish transaction takes exactly that step. |
| LearningService.Service.AssertCurrent | apps/api/src/enrollments/assert-current-enrollment.ts:12-24 | The conditional update used as a fence succeeds exactly when the generation is current and active, and changes nothing. |
| LearningService.Service.PrepareMessage | apps/api/src/chat/chat.service.ts:360-425 | Accepting a request takes exactly that step. |
| LearningService.Service.RespondWithFallback | apps/api/src/chat/chat.service.ts:513-535 | Storing the fallback text takes exactly that step. |
| LearningService.Service.SaveAgentReply | apps/api/src/chat/chat.service.ts:537-590 | Saving or refusing a reply takes exactly that step; a refused one is charged in a second transaction, with any other transactions in between. |
| ScannerLoops.LinkEnd | packages/lesson-blocks/src/derive.ts:68-102 | The loop that updates the scan in place finds the link the specification finds, and leaves the scan as specified. |
| ScannerLoops.MarkEnd | packages/lesson-blocks/src/derive.ts:104-122 | The loop finds the closing mark the specification finds. |
| ScannerLoops.Plain | packages/lesson-blocks/src/derive.ts:124-175 | The main loop, with its recursive calls on slices, outputs what the specification outputs and leaves the same links, budget and flag. |
| ScannerProperties.LinkScanIsBounded | packages/lesson-blocks/src/derive.ts:58-66 | However marks and links nest, completed link-scan iterations never exceed the budget over the whole recursion. |
| ScannerProperties.BudgetOnlyMattersWhenExceeded | packages/lesson-blocks/src/derive.ts:60-102 | Unless `exceeded` is reported, text and links are those of the scanner without a budget; and it is reported exactly when that scanner needs more steps than the budget. |
| ScannerProperties.PlainIsSubsequence | packages/lesson-blocks/src/derive.ts:124-175 | The output is a subsequence of the input. |
| ScannerKeeps.QuietTextIsKept | packages/lesson-blocks/src/derive.ts:124-175 | Text without marks, backticks, brackets and backslashes scans to itself. |
| ScannerKeeps.BackslashRun | packages/lesson-blocks/src/derive.ts:128-137 | A run of n backslashes leaves half of them, rounded up, before a character that cannot be escaped and at the end, and half rounded down with the character kept before one that can. |
| ScannerKeeps.UnclosedMarkStays | packages/lesson-blocks/src/derive.ts:159-171 | A mark that is never closed stays as written. |
| ScannerKeeps.UnclosedFenceStays | packages/lesson-blocks/src/derive.ts:138-149 | So does a run of backticks without a closing run of its length. |
| ScannerKeeps.UnclosedBracketStays | packages/lesson-blocks/src/derive.ts:150-158 | So does an opening bracket that no bracket closes. |
| ScannerKeeps.ClosedMarkGoes | packages/lesson-blocks/src/derive.ts:159-171 | A closed mark goes and what it encloses stays. |
| ScannerKeeps.LinkIsReadIff | packages/lesson-blocks/src/derive.ts:68-102 | A bracketed label with a target in parentheses is read as a link if and only if label and target keep to their limits of 500 and 2000 characters; otherwise it stays as written. |
| InlineTheorems.EscapeThenScan | apps/api/src/courses/lesson-conversion/inline.ts:4-4 | Escaping and then scanning is the identity for every string, and touches neither links nor budget. |
| InlineTheorems.PrintThenScan | apps/api/src/courses/lesson-conversion/inline.ts:21-65 | Every tree of phrasing nodes whose marks do not collide, at any nesting of strong, emphasis, code, highlights and links, scans back to what it shows, with every link target once and in reading order. |
| InlineTheorems.PrintThenScanOnBudget | apps/api/src/courses/lesson-conversion/inline.ts:67-73 | The same for the scanner with its budget, unless it reports that the budget was exceeded. |
| InlineTheorems.ShownIsTextOf | apps/api/src/courses/lesson-conversion/inline.ts:6-19 | What such a tree shows is its `textOf`, when it holds no highlight and no line break. |
| InlineLimits.CodeRoundTripsIff | apps/api/src/courses/lesson-conversion/inline.ts:42-53 | An inline code span keeps its text if and only if the text is not empty and has no backtick at either end. |
| InlineLimits.NeighboursRoundTripIff | apps/api/src/courses/lesson-conversion/inline.ts:21-65 | Two neighbours that each round-trip do so together if and only if the second is not emphasis after a printed star and they are not both code. |
| InlinePrinted.EscapeIsLocal | apps/api/src/courses/lesson-conversion/inline.ts:4-4 | Escaping puts a backslash before each of the six marks, wherever it stands, and leaves every other character. |
| InlinePrinted.HighlightIsBold | apps/api/src/courses/lesson-conversion/inline.ts:23-37 | The first highlight of a text is printed bold without its markers, the text before it escaped and the rest printed as a text of its own. |
| InlinePrinted.PlainTextIsEscaped | apps/api/src/courses/lesson-conversion/inline.ts:23-37 | Text without two equals signs in a row is escaped and nothing else. |
| InlinePrinted.FenceIsShortest | apps/api/src/courses/lesson-conversion/inline.ts:42-53 | A code span is fenced by the fewest backticks that it does not hold in a row. |
| InlinePrinted.MarksArePrinted | apps/api/src/courses/lesson-conversion/inline.ts:38-65 | Strong text, emphasis, line breaks, links with a web address and links without one are printed as the subset writes them. |
| PrinterLoops.ConvertText | apps/api/src/courses/lesson-conversion/inline.ts:23-37 | The loop over highlight matches prints what the character-by-character definition prints. |
| SseStream.ParseStream | apps/api/src/chat/sse-parser.ts:20-47 | The nested loops yield the frames of the specification and keep the same rest. |
| SseStream.ParseFrame | apps/api/src/chat/sse-parser.ts:3-16 | The loop over lines reads the frame of the specification. |
| SseReading.FrameMeans | apps/api/src/chat/sse-parser.ts:3-16 | A block is a frame if and only if it has a `data:` line. Its data are the texts after `data:`, trimmed, in order, with a line feed between each two; its event is the trimmed text of the last `event:` line, or `message`. |
| SseReading.TrimIsTrim | apps/api/src/chat/sse-parser.ts:9-10 | Trimming takes off exactly the white space at both ends. |
| SseReading.SplitIsJoined | apps/api/src/chat/sse-parser.ts:7-7 | The lines of a block hold no line feed and joined give the block. |
| SseReading.NormReplaces | apps/api/src/chat/sse-parser.ts:30-30 | Every CR LF becomes a line feed, and nothing else changes. |
| SseReading.CutMeans | apps/api/src/chat/sse-parser.ts:32-39 | A text is cut at its first blank line, and then the rest of it; text without one is kept. |
| SseProperties.ChunksDoNotMatter | apps/api/src/chat/sse-parser.ts:20-47 | For every stream without CR CR LF every way of cutting it into chunks gives the blocks, and so the frames, of the whole. |
| SseProperties.TwoStepNormIff | apps/api/src/chat/sse-parser.ts:31-33 | Normalising line ends before and after a chunk boundary gives the same text for every boundary if and only if the stream has no CR CR LF. |
| SseBlocks.SameBlocksIff | apps/api/src/chat/sse-parser.ts:31-43 | The blocks handed to `parseFrame` are the same for every way of cutting the stream if and only if, after one normalisation of the whole, no complete block holds CR LF and no line of carriage returns follows a line feed in what is left over. |
| SseLines.OnlyCrLinesMatter | apps/api/src/chat/sse-parser.ts:3-43 | The frames depend on chunks at most if a line of two or more carriage returns and nothing else stands after another line; otherwise they are those of the text without any carriage return before a line feed. |
| SseLines.CrLineMattersIff | apps/api/src/chat/sse-parser.ts:3-43 | And it does matter: for two data lines with a line of n carriage returns between them, the frames are the same for every chunking if and only if n is less than two. |
| SseFrames.PrintedEventsAreRead | apps/api/src/chat/chat.controller.ts:97-105 | Whatever events the controller prints, and however the network cuts the text, the parser yields exactly these events. |
| SseFrames.EventIsReadIff | apps/api/src/chat/chat.controller.ts:97-105 | A one-line event comes back unchanged if and only if neither its type nor its data has white space at an end. |
| MarkdownToBlocks.Split | apps/api/src/courses/lesson-conversion/markdown-to-blocks.ts:136-162 | The splitting loop equals the specification of the split. |
| LessonConversion.SplitKeepsAtoms | apps/api/src/courses/lesson-conversion/markdown-to-blocks.ts:136-162 | Splitting at images loses no leaf, reorders none, and leaves every text under its own chain of marks. |
| LessonConversion.SplitSeparates | apps/api/src/courses/lesson-conversion/markdown-to-blocks.ts:136-162 | Every unit is an image or holds none. |
| LessonConversion.ContentUnitsKeepImages | apps/api/src/courses/lesson-conversion/markdown-to-blocks.ts:175-200 | Flattening a paragraph, heading, table, list or blockquote keeps exactly its nested images, once each and in order. |
| LessonConversion.SplitIsWhole | apps/api/src/courses/lesson-conversion/markdown-to-blocks.ts:136-162 | A mark is cut at its images only: no two of its units stand side by side without one. |
| MarkdownToBlocks.Converter.ConvertParagraph | apps/api/src/courses/lesson-conversion/markdown-to-blocks.ts:329-347 | The loop appends exactly the blocks of the paragraph, text for text. |
| LessonBodies.ParagraphIsCut | apps/api/src/courses/lesson-conversion/markdown-to-blocks.ts:329-347 | A paragraph is cut at its images: the text before one is kept with its white space, the text after the last one is trimmed, and blank text becomes no block. |
| LessonBodies.InlineIsPrinted | apps/api/src/courses/lesson-conversion/markdown-to-blocks.ts:49-71 | The text of nodes without images is what the printer prints for each, one after the other. |
| LessonBodies.DropKeepsText | apps/api/src/courses/lesson-conversion/markdown-to-blocks.ts:49-71 | Leaving out the images of a heading loses no text and takes none out of its marks. |
| MarkdownToBlocks.Converter.ConvertBlockquote | apps/api/src/courses/lesson-conversion/markdown-to-blocks.ts:348-363 | The loop appends exactly the blocks of the quote, text for text. |
| LessonBodies.QuoteIsCut | apps/api/src/courses/lesson-conversion/markdown-to-blocks.ts:348-363 | A quote is cut at its images; all text between two of them is one trimmed callout. |
| LessonBodies.FlowTextIsJoined | apps/api/src/courses/lesson-conversion/markdown-to-blocks.ts:193-197 | The texts of the blocks in a quote are joined by line feeds. |
| LessonBodies.ItemTextIsJoined | apps/api/src/courses/lesson-conversion/markdown-to-blocks.ts:193-197 | So are those of the items of a list in a quote. |
| LessonBodies.RowTextIsJoined | apps/api/src/courses/lesson-conversion/markdown-to-blocks.ts:184-192 | So are the rows of a table in a quote or a list item. |
| LessonBodies.CellTextIsJoined | apps/api/src/courses/lesson-conversion/markdown-to-blocks.ts:184-192 | Its cells are joined by bars. |
| MarkdownToBlocks.Converter.ConvertList | apps/api/src/courses/lesson-conversion/markdown-to-blocks.ts:261-328 | The visiting methods and the loop append exactly the blocks of the list, text for text. |
| LessonBodies.ItemIsCut | apps/api/src/courses/lesson-conversion/markdown-to-blocks.ts:264-281 | A paragraph of a list item is one trimmed item, unless an image cuts it. |
| LessonBodies.EachItemIs | apps/api/src/courses/lesson-conversion/markdown-to-blocks.ts:290-297 | In any other content of an item each unit of text is an item of its own, trimmed, unless it is blank. |
| LessonBodies.NestedListIsFlattened | apps/api/src/courses/lesson-conversion/markdown-to-blocks.ts:282-300 | The items of a nested list stand among those of the outer one, in its place. |
| LessonBodies.ListIsCut | apps/api/src/courses/lesson-conversion/markdown-to-blocks.ts:299-320 | All items between two images are one list block. |
| MarkdownToBlocks.NodeShows | apps/api/src/courses/lesson-conversion/markdown-to-blocks.ts:261-363 | The visible characters and images of the blocks of a paragraph, quote or list are those of the node, in the same interleaving. |
| LessonBodies.ParagraphKinds | apps/api/src/courses/lesson-conversion/markdown-to-blocks.ts:329-347 | Text blocks of a paragraph are never blank and its image blocks are the ones due. |
| LessonBodies.QuoteKinds | apps/api/src/courses/lesson-conversion/markdown-to-blocks.ts:348-363 | Callouts are trimmed and not empty. |
| LessonBodies.ListItemsAreTrimmed | apps/api/src/courses/lesson-conversion/markdown-to-blocks.ts:261-300 | List items are trimmed and not empty. |
| LessonBodies.ListKinds | apps/api/src/courses/lesson-conversion/markdown-to-blocks.ts:299-320 | No two lists stand side by side, and none is empty. |
| MarkdownToBlocks.Converter.ConvertHeading | apps/api/src/courses/lesson-conversion/markdown-to-blocks.ts:219-233 | The method appends exactly the blocks of the heading and records a dropped title. |
| MarkdownToBlocks.Converter.ConvertTable | apps/api/src/courses/lesson-conversion/markdown-to-blocks.ts:250-260 | The method appends exactly the blocks of the table. |
| MarkdownToBlocks.PlainNodes | apps/api/src/courses/lesson-conversion/markdown-to-blocks.ts:201-260 | First-level headings are dropped and recorded, second-level ones stay and deeper ones become third-level, each followed by its images; tables are followed by theirs; code, dividers, definitions, tags and unknown nodes become what the source says. |
| MarkdownToBlocks.TableIsPrinted | apps/api/src/courses/lesson-conversion/markdown-to-blocks.ts:250-260 | The first row of a table names its columns and the others are its rows, cell by cell the trimmed text. |
| LessonBodies.ImageBodyMeans | apps/api/src/courses/lesson-conversion/markdown-to-blocks.ts:77-126 | An image of a known file becomes an image block, any other a placeholder that names the file; the alternative text, or else the file name, goes with it unless the table keeps it. |
| LessonBodies.ImageBodiesAt | apps/api/src/courses/lesson-conversion/markdown-to-blocks.ts:163-164 | Each image of a heading or table has its own block, in its place. |
| MarkdownToBlocks.TreeConcat | apps/api/src/courses/lesson-conversion/markdown-to-blocks.ts:218-219 | Each top-level node becomes its own blocks, whatever surrounds it. |
| LessonBodies.BlockIdShows | apps/api/src/courses/lesson-conversion/markdown-to-blocks.ts:43-47 | Block ids are numbered in decimal with at least three digits. |
| MarkdownToBlocks.CellKeepsAlt | apps/api/src/courses/lesson-conversion/markdown-to-blocks.ts:250-260 | An image in a table cell leaves its escaped alternative text there, between what stands before and after it, if the printer prints images that way; the image itself is among those after the table. |
| MarkdownToBlocks.Converter.Convert | apps/api/src/courses/lesson-conversion/markdown-to-blocks.ts:218-370 | Over a whole tree the blocks are exactly those of its nodes in order and the dropped titles its first-level headings; the image blocks are the nested images in reading order, and all block ids differ. |
| DraftContent.Draft.CreateModule | apps/api/src/admin/draft/draft-content.service.ts:56-77 | The new module comes last and positions stay 1..n. |
| DraftContent.Draft.CreateLesson | apps/api/src/admin/draft/draft-content.service.ts:151-184 | The new lesson comes last in its module; a missing module or a content id already used in the draft is refused. |
| DraftContent.Draft.DeleteModule | apps/api/src/admin/draft/draft-content.service.ts:97-126 | The module and its lessons go, the others keep their order, positions are 1..n again, and every row write on the way is accepted by the unique constraints. |
| DraftContent.Draft.DeleteLesson | apps/api/src/admin/draft/draft-content.service.ts:244-269 | The same for one lesson. |
| DraftContent.Draft.Reorder | apps/api/src/admin/draft/draft-content.service.ts:271-351 | Exactly the complete permutations are accepted; the result is exactly the requested order with every row keeping its content id; it fails, and is rolled back, exactly when a temporary content id clashes. |
| DraftContent.CompleteIff | apps/api/src/admin/draft/draft-content.service.ts:495-507 | The checks of a reorder accept exactly the permutations of all modules and all lessons. |
| DraftOrder.RearrangesIff | apps/api/src/admin/draft/draft-content.service.ts:495-507 | `assertPermutation` accepts exactly the lists with the same multiset of ids. |
| DraftRows.RenameStep | apps/api/src/admin/draft/draft-content.service.ts:333-339 | Giving the next lesson its temporary content id keeps the unique constraints if and only if no later lesson of its module already has that id. |
| DraftRows.PlaceStep | apps/api/src/admin/draft/draft-content.service.ts:340-349 | Placing the next lesson keeps them if and only if its content id is not the temporary id of a lesson still waiting in that module. |
| DraftRows.UnreservedNeverClash | apps/api/src/admin/draft/draft-content.service.ts:333-349 | A draft with no content id that starts with `reorder-` can always be reordered. |
| DraftRows.ReservedClashes | apps/api/src/admin/draft/draft-content.service.ts:333-339 | A draft, with content ids the slug pattern accepts, that cannot even be reordered to its own order. |
| DraftPlaces.PlacedIsRequested | apps/api/src/admin/draft/draft-content.service.ts:340-349 | When all lessons are placed every module holds exactly the lessons asked for, in that order. |
| Autosave.AutosaveLosesNothingIff | apps/admin/components/editor/autosave.ts:22-91 | At every moment of every run that stages these candidates, a ready latest revision has been confirmed by the server, is pending, is behind a running save or was reported failed, if and only if no ready candidate with revision 0 is among those the queue accepts. |
| Autosave.FirstZeroIsLost | apps/admin/components/editor/autosave.ts:28-42 | The input for which it fails: a first ready revision 0 counts as saved although nothing was ever sent. |
| Autosave.AutosaveKeepsItsPromises | apps/admin/components/editor/autosave.ts:22-91 | Under every interleaving: at most one save in flight, sent revisions never decrease, only the latest ready candidate is sent, a saved or rejected revision is never sent again, verdicts are reported for the latest revision only, and `saved` is 0 or a revision the server confirmed. |
| Autosave.NoticesFollowAnswers | apps/admin/components/editor/autosave.ts:58-84 | Over every run, on what can be observed alone: each `saved` directly follows a success for its revision and each `failed` a rejection or an error; and every candidate, and every answer about the latest one, is reported at once, unless the queue is disposed. |
| Autosave.RetrySendsIff | apps/admin/components/editor/autosave.ts:33-49 | After any run a retry sends the latest candidate if and only if it is ready, no save is running, the queue is not disposed, and its revision was neither confirmed nor rejected. |
| Autosave.AnswerIsHandled | apps/admin/components/editor/autosave.ts:58-71 | After an answer a newer ready candidate is sent at once, and a verdict on the latest one is reported. |
| Autosave.Saver.StageCandidate | apps/admin/components/editor/autosave.ts:74-84 | Staging takes exactly the step the theorem is about. |
| Autosave.Saver.Flush | apps/admin/components/editor/autosave.ts:33-49 | Flushing does, up to the call of `save`. |
| Autosave.Saver.Resume | apps/admin/components/editor/autosave.ts:58-71 | The code after `save` does. |
| EditorState.ReduceCopy | apps/admin/components/editor/editor-state.ts:28-135 | The reducer, branch by branch on a local copy, computes the specified state. |
| EditorEdits.AddAppends | apps/admin/components/editor/editor-state.ts:80-88 | A new block comes last, is selected and shifts no other; a lesson of 300 blocks takes none. |
| EditorEdits.DuplicateFollows | apps/admin/components/editor/editor-state.ts:92-97 | A copy stands right after its original under a new id. |
| EditorEdits.RemoveRemoves | apps/admin/components/editor/editor-state.ts:98-102 | Exactly the named block goes, with its upload and its selection. |
| EditorEdits.MoveSwaps | apps/admin/components/editor/editor-state.ts:122-126 | A block moved up changes places with the one before it, and one moved down with the one after it; at the ends nothing happens. |
| EditorEdits.UpdateReplaces | apps/admin/components/editor/editor-state.ts:103-110 | The properties of the named block become the given ones, and an upload ends exactly when they name another asset. |
| EditorEdits.PatchMerges | apps/admin/components/editor/editor-state.ts:111-121 | The given fields of the named block are set, all others kept, and an upload ends exactly when the asset is among them. |
| EditorEdits.UnknownIdIsIgnored | apps/admin/components/editor/editor-state.ts:90-91 | An action about a block that does not exist changes nothing. |
| EditorEdits.AssetArrives | apps/admin/components/editor/editor-state.ts:45-57 | The result of an upload names the asset in its block and keeps all its other properties. |
| EditorEdits.OtherResultsAreIgnored | apps/admin/components/editor/editor-state.ts:33-57 | A failed upload only ends; results of other uploads and uploads for other blocks change nothing. |
| EditorEdits.OthersMeanWhatTheySay | apps/admin/components/editor/editor-state.ts:58-76 | Selecting changes the selection only; undo and redo bring back the neighbouring state, unselect and forget all uploads. |
| EditorProperties.HistoryIsBounded | apps/admin/components/editor/editor-state.ts:63-78 | |past| + |future| never exceeds 50. |
| EditorProperties.UndoAndRedoAreInverse | apps/admin/components/editor/editor-state.ts:63-78 | Undo and redo are exact inverses on blocks, past and future. |
| EditorProperties.FiftyEditsCanBeUndone | apps/admin/components/editor/editor-state.ts:128-135 | Up to fifty edits followed by as many undos give back the blocks from before the first. |
| EditorProperties.UploadsNameImages | apps/admin/components/editor/editor-state.ts:33-135 | After any run every upload names an existing image block and block ids are distinct, in the history too. |
| EditorProperties.ResultCountsIffUntouched | apps/admin/components/editor/editor-state.ts:45-61 | The result of an upload is put in place if and only if no later start, effective undo or redo, removal or asset change touched that upload since it began; otherwise it changes nothing at all. |

## Left out

- HTTP, guards, audit rows, broadcasts, console tokens and idle sweeps are I/O around these updates.
- Labs, the agent and the database are modelled by what they may answer, not by their code.
- The success outcomes of starting and stopping a VM are over-approximated: the model lets a call
  succeed whenever Labs says so, whether or not the VM is alive.
- The order in which a sweep picks among due rows is arbitrary in the model, and the sweep methods
  are proved at a fixed clock with nothing else running; the safety theorems cover interleaving.
- WorkspaceSafety.NoVmIsEverLost: holds for runs that respect `Fenced`; by `FencedIsExact` it is false
  after any step that does not.
- WorkspaceSafety.RowsLeaveOnlyWhenSettled: needs only the part of `Fenced` about names reserved again
  (`Careful`), and by `CarefulIsExact` all of that part.
- WorkspaceDeletions.DeletesSpareWorkspacesInUse: holds for `Sparing` runs, with or without `Fenced`; by
  `SparingIsExact` it is false after any step that is not sparing.
- Administrator enrolment and rows migrated from older schemas do not start from the invariants.
- A handler that dies while it waits for the agent, or between refusing a late reply and charging it,
  leaves an answer nobody meters; such replies are outside the conservation claims.
- Progress frames of a streamed reply, the ownership check before a chat request and the context sent
  to the agent are not modelled.
- Activities record for which generation and lesson they were written, ledger rows which replies they
  pay for; both are additions of the model that the theorems need.
- Strings are sequences of characters, not of UTF-16 code units, so the limits of 500 and 2000 count
  characters. UTF-8 decoding of the stream is not part of this model.
- InlineTheorems.PrintThenScan: the condition on trees is sufficient; it is exact for pairs of
  neighbours and for code spans only.
- SseLines.OnlyCrLinesMatter: the condition is exact for the blocks (`SameBlocksIff`). For frames it is
  exact for a line of carriage returns between two data lines (`CrLineMattersIff`); elsewhere such a line
  can be harmless, for example between comments.
- The Markdown parser, the removal of HTML tags and the rendering of one phrasing node inside the
  conversion are parameters. Conversion reports and generated-text metadata are not modelled. Images
  inside node types the converter does not map are lost in the source too.
- Lesson content checks, assessments, course metadata and cover images are not part of drafts here,
  and an update that leaves positions and content ids alone is left out as easy.
- Clamping of percentages, dashboards, usage reports and authentication are not part of this model.
