# Matinier: a verified model

Matinier captions live audio, runs a private meeting agent and hosts plugins. This project models
the parts of it whose correctness is not visible from any single function, and proves what they
promise.

| modules | part of the system |
|---|---|
| `CaptionText`, `CaptionWords`, `ReadingUnits`, `CaptionCues`, `CaptionPressure`, `CueTimes`, `ComposeCues` | the caption layout engine |
| `CaptionReplica`, `CaptionStore`, `CaptionSnapshots`, `TranscriptReconciler` | caption revisions, from the publisher to the replica in the browser |
| `LiveCaptionView` | the throttled live view |
| `AssistantState`, `AssistantApi`, `AssistantEffects`, `AssistantRuns`, `AssistantHistory` | input, cancel, approve and reject over the agent's tables |
| `EventCursor` | polling the agent's event log |
| `HostConfirm`, `ConfirmEffects` | confirming plugin actions over an RPC that may stay unanswered |
| `PluginSchema`, `PluginShape`, `PluginNormalForm`, `PluginAccounting`, `PluginParser`, `PluginView`, `PluginGuarantees`, `PluginTypes`, `PluginFidelity` | the plugin view parser |
| `ScriptEvidence`, `ScriptMigration`, `ArtifactIdentity` | two data migrations |
| `RuntimeRegistry` | the bounded registry of runtime snapshots |
| `PackageFraming` | what a plugin package's digest and signature are computed over |
| `Outcome`, `Sorting`, `TextOrder`, `Whitespace` | shared types, orders and character classes |

Code that changes state or loops is a class or a method, proved equal to a specification function or
to a stated property; the theorems are lemmas about those functions. For each operation some lemma
states its whole effect in terms of inputs and rows alone. Concurrency is explicit. A
handler of the agent reads its rows at one moment and writes at a later one, and anything may be
committed in between; a confirmation is three steps that interleave with those of other
confirmations. No lemma relies on automatic induction. `dafny verify dfyconfig.toml` checks everything.

Where a promise does not hold of the code, the code is kept, a failing input is given and the exact
condition is proved:

- Splitting into sentences drops a mark that follows another one (`CaptionText.DoubledMarkIsLost`,
  `CaptionText.SentenceInkExact`).
- The replica converges only for settled streams (`CaptionReplica.OrderMatters`,
  `CaptionReplica.ConvergesIffSettled`); the publisher's streams are settled
  (`TranscriptReconciler.PublishedConverges`).
- Event polling reads the log three times; an event committed between the last two reads is lost for
  good (`EventCursor.GapLosesEvent`, `EventCursor.RunCaught`). If the three reads see one state, nothing
  is.
- A worker can still bump the version of a terminal execution
  (`AssistantHistory.WorkersCanTouchTerminalRows`, `AssistantHistory.TerminalForever`); no request can.
- Two copies of a decision that miss each other's record can be answered differently
  (`AssistantHistory.DuplicateAnswersDiffer`, `AssistantHistory.AnswerIsStoredExactly`).
- A request digest does not cover the approval in the URL, so a replay under any other approval answers
  with the first one's response (`AssistantHistory.ReplayIgnoresApproval`,
  `AssistantHistory.ReplayExactly`).
- The lookup before the plugin is asked does not compare actions (`HostConfirm.ReuseAnswersWrongly`,
  `HostConfirm.LookupIgnoresAction`).
- A legacy script stops the upgrade when the package chosen for it already holds a clean script of its
  version (`ScriptMigration.VersionCanBeTaken`, `ScriptMigration.UpgradeSucceedsExactly`).
- The review identity can bring two rows of one version together (`ArtifactIdentity.LanguagesCanClash`,
  `ArtifactIdentity.NewUniqueExactly`), and the table-wide version shift is safe in every row order
  exactly without versions 1,000,000 apart (`ArtifactIdentity.GapClashes`,
  `ArtifactIdentity.ShiftNeverClashes`).
- A larger registry contains a smaller one, but the smaller need not be its newest part
  (`RuntimeRegistry.NotAlwaysNewest`, `RuntimeRegistry.StaysNewestExactly`).

## Model

| member | source | states |
|---|---|---|
| `CaptionText.JoinKeeps` | frontend/lib/caption-cues.ts:88-98 | joining two texts keeps every inked grapheme of both, in order, whatever whitespace it adds or drops |
| `CaptionText.NormalizeKeeps` | frontend/lib/caption-cues.ts:54-59 | normalising keeps every inked grapheme in order and leaves no whitespace at either end |
| `CaptionText.PiecesAreKept` | frontend/lib/caption-cues.ts:77-81 | the pieces of the scanning regular expression, put together, are the text without exactly those marks that follow another mark or open the text |
| `CaptionText.PieceShape` | frontend/lib/caption-cues.ts:77-81 | a piece starts with a non-mark and has a mark at most as its last grapheme |
| `CaptionText.SentenceSpansKeep` | frontend/lib/caption-cues.ts:77-81 | the sentence spans carry exactly the ink that the scan keeps and every grapheme that is neither whitespace nor a boundary mark; none is blank |
| `CaptionText.SentenceInkExact` | frontend/lib/caption-cues.ts:77-81 | splitting into sentences keeps all ink if and only if no sentence mark directly follows another or opens the text, or the text is marks only |
| `CaptionText.DoubledMarkIsLost` | frontend/lib/caption-cues.ts:77-81 | concrete case: of "a?!" only "a?" survives the sentence split |
| `CaptionText.SemanticPiecesKeep` | frontend/lib/caption-cues.ts:342-344 | the phrase pieces keep every grapheme that is neither whitespace nor a boundary mark |
| `CaptionText.TokensKeep` | frontend/lib/caption-cues.ts:291-293 | the tokens of a hard split keep all ink in order |
| `CaptionText.WordsAreWords` | frontend/lib/caption-cues.ts:291-293 | no token of a space-separated text has whitespace inside it |
| `CaptionWords.TrimExactly` | frontend/lib/caption-cues.ts:54-59 | trimming takes exactly the whitespace at both ends |
| `CaptionWords.JoinKeepsWords` | frontend/lib/caption-cues.ts:88-98 | in a language written with spaces the words of the joined text are those of both sides, none run together or cut |
| `CaptionWords.JoinIsTight` | frontend/lib/caption-cues.ts:88-98 | in the other languages trimmed texts are put side by side |
| `CaptionWords.NormalizeKeepsWords` | frontend/lib/caption-cues.ts:54-59 | normalising keeps every word whole and apart from the next |
| `CaptionWords.NormalizeShape` | frontend/lib/caption-cues.ts:54-59 | a normalised text has no two blanks in a row and no space beside a newline |
| `CaptionWords.WordsFindsAll` | frontend/lib/caption-cues.ts:291-293 | the word expression finds exactly the maximal runs without whitespace, in order |
| `CaptionWords.PiecesCounted` | frontend/lib/caption-cues.ts:77-81 | there are as many pieces as places where a non-mark follows a mark or the start: none is cut in two or left out |
| `ReadingUnits.CountUnits` | frontend/lib/caption-cues.ts:264-284 | the stateful counting loop computes the specified number of reading units, at least one |
| `ReadingUnits.UnitsExactly` | frontend/lib/caption-cues.ts:264-284 | the units are the CJK graphemes, the pictographs and the maximal runs of letters and digits, and one at least |
| `ReadingUnits.UnitsConcat` | frontend/lib/caption-cues.ts:264-284 | reading units are subadditive under concatenation |
| `ReadingUnits.UnitsJoin` | frontend/lib/caption-cues.ts:264-284 | reading units are subadditive under `joinText` |
| `ReadingUnits.TrimKeepsUnits` | frontend/lib/caption-cues.ts:264-284 | trimming does not change the number of reading units |
| `CaptionCues.FittingGraphemeCount` | frontend/lib/caption-cues.ts:100-115 | the loop finds the longest run of prefixes that all fit the line |
| `CaptionCues.FitCountFits` | frontend/lib/caption-cues.ts:100-115 | every prefix up to the count fits the line width |
| `CaptionCues.PreferredBreakIndex` | frontend/lib/caption-cues.ts:117-144 | the result is the last strong mark within what fits (one whose prefix is not short, when short ones may merge), else the last clause mark, else the last space, else the edge, said of the graphemes themselves |
| `CaptionCues.NextLineEnd` | frontend/lib/caption-cues.ts:163-176 | the next line takes at least one grapheme and ends at the specified place |
| `CaptionCues.WrapPass` | frontend/lib/caption-cues.ts:159-183 | the wrapping loop computes the specified lines, each ending where `NextLineEnd` says |
| `CaptionCues.WrapText` | frontend/lib/caption-cues.ts:153-184 | the lines are the trimmed, nonblank pieces of the text cut, each time, after all that is left if it fits and else at the preferred place within the longest prefix that fits |
| `CaptionCues.WrapIsWellCut` | frontend/lib/caption-cues.ts:153-184 | those cuts determine the lines: a list of lines is cut that way if and only if it is what wrapping computes |
| `CaptionCues.WrapCutsBetweenWords` | frontend/lib/caption-cues.ts:117-144 | no line ends inside a word when a space or a mark that may end it is on the line |
| `CaptionCues.WrapKeeps` | frontend/lib/caption-cues.ts:153-184 | wrapping loses no ink, repeats none and keeps its order |
| `CaptionCues.WrapLinesOk` | frontend/lib/caption-cues.ts:153-184 | every line is nonblank, trimmed, and fits the width or is a single grapheme |
| `CaptionCues.RawCuesForSpan` | frontend/lib/caption-cues.ts:191-209 | the lines are grouped into the specified cues |
| `CaptionCues.RawCuesOk` | frontend/lib/caption-cues.ts:191-209 | every cue has between one and `maxLines` displayable lines that carry the ink of its text, and together the cues carry the ink of the span |
| `CaptionWords.GroupExactly` | frontend/lib/caption-cues.ts:191-209 | grouping keeps the lines in order, fills every cue but the last and gives each the words of its lines |
| `CaptionCues.MergePass` | frontend/lib/caption-cues.ts:225-262 | the splicing loop, whose index can step back, terminates and computes the specified merge |
| `CaptionCues.MergeShortCues` | frontend/lib/caption-cues.ts:225-262 | merging short cues computes the specified list |
| `CaptionCues.MergedOk` | frontend/lib/caption-cues.ts:211-223 | a successful merge attempt gives a displayable cue with the ink of both |
| `CaptionCues.MergeFromKeeps` | frontend/lib/caption-cues.ts:225-262 | merging from any index loses no ink and never adds a cue |
| `CaptionCues.MergeFromOk` | frontend/lib/caption-cues.ts:225-262 | merging from any index keeps every cue displayable |
| `CaptionCues.MergeOk` | frontend/lib/caption-cues.ts:225-262 | the merged cues carry the ink of the given ones and stay displayable |
| `CaptionCues.MergeIsComplete` | frontend/lib/caption-cues.ts:225-262 | in the merged list no cue below the fill threshold fits together with its predecessor, nor did it fit at its last visit with its successor, which has since grown only to the right |
| `CaptionCues.MergeIdleExactly` | frontend/lib/caption-cues.ts:225-262 | merging changes nothing if and only if no cue below the threshold fits together with a neighbour |
| `CaptionCues.FirstMerge` | frontend/lib/caption-cues.ts:239-259 | the first short cue that can be merged takes its successor if that fits, else its predecessor takes it, and the pass goes on from there |
| `CaptionPressure.HardSplitByReadingUnits` | frontend/lib/caption-cues.ts:286-312 | the token loop computes the specified chunks |
| `CaptionPressure.PackPiecesPass` | frontend/lib/caption-cues.ts:345-372 | the phrase loop with its pending text computes the specified chunks |
| `CaptionPressure.SplitOne` | frontend/lib/caption-cues.ts:338-377 | a cue within the budget stays; another is cut into phrases, packed, cut into tokens where a phrase is too long, and laid out again |
| `CaptionPressure.LayOut` | frontend/lib/caption-cues.ts:374-376 | every span is laid out, in order |
| `CaptionPressure.ChunksKeep` | frontend/lib/caption-cues.ts:334-372 | the chunks keep every grapheme that is neither whitespace nor a boundary mark, in order and once |
| `CaptionPressure.ChunksBounded` | frontend/lib/caption-cues.ts:334-372 | every chunk has at most `maxUnits` reading units; only in a language written with spaces may one have more, and then it is a single word of one phrase |
| `CaptionPressure.HardSplitGreedy` | frontend/lib/caption-cues.ts:286-312 | inside a phrase every chunk takes tokens as long as the budget lasts |
| `CaptionPressure.ChunksGreedy` | frontend/lib/caption-cues.ts:334-372 | phrases share a chunk as long as the budget lasts, and only a phrase over the budget is cut |
| `CaptionPressure.PressureExactly` | frontend/lib/caption-cues.ts:319-331 | a caption is under pressure if and only if 1000 times its units exceed the rate times its milliseconds |
| `CaptionPressure.BudgetExactly` | frontend/lib/caption-cues.ts:334-337 | the budget of a cue is the largest number of units within the rate, and one at least |
| `CaptionPressure.PressureLeaves` | frontend/lib/caption-cues.ts:314-341 | without an interval, within the rate, or with every cue within its budget, nothing changes |
| `CaptionPressure.PressureCueByCue` | frontend/lib/caption-cues.ts:314-378 | under pressure every cue within the budget is kept and every other is replaced by its own greedy chunks, laid out |
| `CaptionPressure.SplitForReadingPressure` | frontend/lib/caption-cues.ts:314-378 | the units are summed and, under pressure, every cue is split in turn; without pressure the cues come back unchanged |
| `CaptionPressure.PressureSplitOk` | frontend/lib/caption-cues.ts:314-378 | splitting keeps the core graphemes of all cues and keeps every cue displayable |
| `CueTimes.AllocateCueTimes` | frontend/lib/caption-cues.ts:380-405 | with an interval, cue `i` runs from edge `i` to edge `i+1` of the tiling; without one every cue gets the caption's own times |
| `CueTimes.RunMarks` | frontend/lib/caption-cues.ts:393-404 | the loop with its running weight puts every cue between two successive marks, with exact first start and last end |
| `CueTimes.EdgeEnds` | frontend/lib/caption-cues.ts:380-405 | the first edge is the start and the last edge the end, so rounding agrees with the exact ends |
| `CueTimes.EdgeSteps` | frontend/lib/caption-cues.ts:380-405 | edges never run backwards, and each length is within one millisecond of its exact share |
| `CueTimes.LengthsAddUp` | frontend/lib/caption-cues.ts:380-405 | the cue lengths add up to the length of the audio interval |
| `CueTimes.TilesTile` | frontend/lib/caption-cues.ts:380-405 | first start and last end are exact, neighbours share endpoints, no cue runs backwards |
| `ComposeCues.ComposeOne` | frontend/lib/caption-cues.ts:413-441 | one caption is normalised, split, merged, split again and timed as specified; a blank one gives no cue |
| `ComposeCues.ComposeCaptionCues` | frontend/lib/caption-cues.ts:407-442 | an invalid profile is refused; otherwise the shown list keeps the core graphemes of all captions in order and once, every cue is displayable and no two have the same display id |
| `ComposeCues.MergedKeeps` | frontend/lib/caption-cues.ts:414-422 | before pressure splitting the cue texts carry exactly the inked graphemes of the caption but for doubled sentence marks |
| `ComposeCues.LaidKeeps` | frontend/lib/caption-cues.ts:413-442 | the whole pipeline keeps every grapheme that is neither whitespace nor a boundary mark, in order and once, and every cue is displayable |
| `ComposeCues.ShownCuesAreMerged` | frontend/lib/caption-cues.ts:419-422 | of a caption without an interval no shown cue below the fill threshold could have been merged at its last visit |
| `ComposeCues.ShownUnderPressure` | frontend/lib/caption-cues.ts:422-426 | of a caption that is too fast every merged cue is shown as it is or cut on its own |
| `ComposeCues.BlankCaption` | frontend/lib/caption-cues.ts:414-417 | a caption is dropped exactly when it is all whitespace |
| `ComposeCues.DisplayedTimesTile` | frontend/lib/caption-cues.ts:428-441 | the shown times tile the caption's audio interval |
| `CaptionReplica.RunSafe` | frontend/lib/captions.ts:335-376 | on every run drafts and finals stay disjoint, a final segment stays final and no revision decreases |
| `CaptionReplica.ConvergesIffSettled` | frontend/lib/captions.ts:335-376 | all deliveries of a set of revisions, in any order and with any repeats, end in one state if and only if each segment has one top revision that is final when any is |
| `CaptionReplica.DisciplineSettles` | frontend/lib/captions.ts:335-376 | drafts below finals and payloads fixed by segment and revision are enough for that |
| `CaptionReplica.OrderMatters` | frontend/lib/captions.ts:335-348 | concrete case: draft 5 and final 3 give different states in the two orders |
| `CaptionReplica.RunCommutes` | frontend/lib/captions.ts:335-376 | forgetting part of the payload commutes with merging |
| `CaptionStore.TracksFollowFeeds` | frontend/lib/captions.ts:378-453 | live events and snapshots interleaved in any way act on each track as a run over its revisions |
| `CaptionStore.EveryRunSafe` | frontend/lib/captions.ts:378-453 | on every mixed run both tracks stay well formed and only grow |
| `CaptionStore.HydrationConverges` | frontend/lib/captions.ts:407-453 | runs that mix live events and snapshots differently, over the same settled revisions, show the same captions and translations, up to provider event id and arrival time |
| `CaptionStore.SnapshotAnywhere` | frontend/lib/captions.ts:407-428 | a snapshot of finals that are also delivered live can be inserted anywhere without changing what is shown |
| `CaptionStore.TranslationSnapshotAnywhere` | frontend/lib/captions.ts:430-453 | the same for a snapshot of translations |
| `CaptionSnapshots.HydrateIsLive` | frontend/lib/captions.ts:407-428 | hydration is the live delivery, in row order, of one final for every final row with visible text, all fields included |
| `CaptionSnapshots.SnapshotShowsLive` | frontend/lib/captions.ts:407-428 | a snapshot shows what its rows show when they come live as finals, from any provider event and at any time |
| `CaptionSnapshots.RowShowsLive` | frontend/lib/captions.ts:407-428 | one final row with visible text shows as the live final it stands for; a blank row or one that is not final changes nothing |
| `CaptionSnapshots.HydrateTranslationsIsLive` | frontend/lib/captions.ts:430-453 | the same for translations, all fields included |
| `CaptionSnapshots.TranslationSnapshotShowsLive` | frontend/lib/captions.ts:430-453 | the same for what a translation snapshot shows |
| `CaptionSnapshots.TranslationRowShowsLive` | frontend/lib/captions.ts:430-453 | the same for one translation row |
| `CaptionSnapshots.FieldsAreLatest` | frontend/lib/captions.ts:378-405 | on every run each plain session field holds what the last event about it said |
| `CaptionSnapshots.SelectedExactly` | frontend/lib/captions.ts:455-501 | a selector lists exactly the drafts, or the finals with visible text, by start, then end, then segment id, missing times last |
| `CaptionStore.OrderedViewUnique` | frontend/lib/captions.ts:455-477 | the displayed order depends only on the map, not on the order in which it was filled |
| `CaptionStore.SameDisplay` | frontend/lib/captions.ts:459-487 | two deliveries of the same settled revisions select the same drafts and the same nonblank finals in the same order |
| `CaptionStore.SameTranslationDisplay` | frontend/lib/captions.ts:468-501 | the same for translations |
| `TranscriptReconciler.Reconciler.Consume` | backend/app/captions/reconciler.py:39-98 | something is emitted if and only if the event is a result with a segment and visible text, a new id and fingerprint and an open segment; it is the next revision of its segment, and all state changes are stated |
| `TranscriptReconciler.PublishedConverges` | backend/app/captions/reconciler.py:67-98 | whatever a publisher has emitted converges in the replica in any order and with any repeats |
| `LiveCaptionView.StepInvariant` | frontend/lib/live-caption-view.ts:96-186 | every step keeps the view well formed, and a candidate is pending exactly when a wake-up is scheduled |
| `LiveCaptionView.ClearsExactly` | frontend/lib/live-caption-view.ts:104-115 | the screen goes blank if and only if nothing is given and nothing waits, and then nothing at all is left |
| `LiveCaptionView.BlankExactly` | frontend/lib/live-caption-view.ts:104-115 | the same at every step of every run |
| `LiveCaptionView.ShownAtOnceExactly` | frontend/lib/live-caption-view.ts:117-186 | exactly when a given candidate is shown by this very step, and the whole view it leaves |
| `LiveCaptionView.NotShownExactly` | frontend/lib/live-caption-view.ts:130-176 | otherwise a repeat clears what waits, an older candidate changes nothing, and any other waits for the refresh or the end of the hold |
| `LiveCaptionView.WakeUpDelivers` | frontend/lib/live-caption-view.ts:99-115 | with nothing given, what waits is treated as given once the refresh is due, and left waiting before |
| `LiveCaptionView.PendingMeansScheduled` | frontend/lib/live-caption-view.ts:96-186 | in every state of every run a candidate is pending exactly when a wake-up is scheduled, and it is never stale |
| `LiveCaptionView.InstallsThrottled` | frontend/lib/live-caption-view.ts:96-186 | between clears an install that is not a final-replace comes at least the refresh interval after the previous install |
| `LiveCaptionView.FinalsHeld` | frontend/lib/live-caption-view.ts:166-176 | on every run a final of another segment replaces a visible final only after its hold |
| `LiveCaptionView.ShownWithinTwoWakeUps` | frontend/lib/live-caption-view.ts:96-186 | a pending candidate is shown after at most two wake-ups at or after their scheduled times |
| `AssistantState.CancelAlwaysLegal` | backend/app/assistant/state_machine.py:45-95 | cancelling is legal from a known status exactly when it is not terminal, or already cancelled |
| `AssistantState.GatesOfTheLifeCycle` | backend/app/assistant/state_machine.py:45-95 | a turn completes only after responding and a run only after observing; a run acts only after planning, and waiting for the user ends only in planning, failure or cancellation |
| `AssistantApi.UnitOfWork.TransitionExecution` | backend/app/assistant/repository.py:313-383 | compare-and-set on version and status: one version up, one event row, or nothing |
| `AssistantApi.UnitOfWork.CreateGrant` | backend/app/assistant/repository.py:542-581 | a new grant row, or an integrity error |
| `AssistantApi.UnitOfWork.ResolveApproval` | backend/app/assistant/repository.py:819-863 | only a pending approval is decided, and with the given grant; an update that matches nothing is lost |
| `AssistantApi.UnitOfWork.RecordOperation` | backend/app/assistant/repository.py:1514-1565 | one row per execution and client operation id; the same request is accepted again, another is a conflict |
| `AssistantApi.Api.SubmitInput` | backend/app/api/assistant.py:806-880 | the handler, step by step with rollback, does to the tables what the specification says; what that is, `AssistantEffects.InputExactly` states of the tables alone |
| `AssistantApi.Api.CancelExecution` | backend/app/api/assistant.py:888-962 | the same for cancellation |
| `AssistantApi.Api.ApproveAction` | backend/app/api/assistant.py:1030-1174 | the same for approval, with expiry and the already-approved answer |
| `AssistantApi.Api.GrantAndMove` | backend/app/api/assistant.py:1101-1174 | grant, approval and execution change together or not at all |
| `AssistantApi.Api.RejectAction` | backend/app/api/assistant.py:1181-1279 | the same for rejection |
| `AssistantEffects.SettledExactly` | backend/app/api/assistant.py:806-862 | a request for a missing execution is refused, and one on record is answered from the record or refused; nothing is written |
| `AssistantEffects.InputExactly` | backend/app/api/assistant.py:806-880 | input is accepted if and only if it is new, names the current version of a waiting action run and is not raced; the row then is planning one version up with result `input_received` alone, one observation carries the text and the grant's actor, one event and one operation row are added, and nothing else changes |
| `AssistantEffects.CancelExactly` | backend/app/api/assistant.py:888-962 | a cancellation is accepted if and only if it is new, current and unraced on a running execution; the row then is cancelled one version up, its result keeps every earlier field but the four it sets, and nothing else changes but one event and one operation row |
| `AssistantEffects.ApproveExactly` | backend/app/api/assistant.py:1030-1174 | an approve that reads an open approval in time grants, binds and moves at once, with every field of the grant, the approval, the result and the row stated, or writes nothing |
| `AssistantEffects.DecidedApproveExactly` | backend/app/api/assistant.py:1060-1092 | an approve that reads a decided or late approval answers the row read, is refused, or marks it expired, and grants nothing |
| `AssistantEffects.RejectExactly` | backend/app/api/assistant.py:1181-1279 | a rejection cancels a running execution and decides its open approval, with every field stated, or writes nothing; an expired approval stays expired |
| `AssistantEffects.DecidedRejectExactly` | backend/app/api/assistant.py:1205-1228 | a rejection of a rejected approval answers the row read; of an approved one it is refused |
| `AssistantEffects.ForeignApproval` | backend/app/api/assistant.py:976-993 | an approve or reject whose approval is missing, or of another execution or session, is refused |
| `AssistantEffects.InputRefusals` | backend/app/api/assistant.py:834-862 | which refusal an input gets |
| `AssistantEffects.CancelRefusals` | backend/app/api/assistant.py:911-944 | which refusal a cancellation gets |
| `AssistantEffects.CurrentMoveExactly` | backend/app/api/assistant.py:806-962 | on current tables input is accepted if and only if the version matches and the run waits for the user, and a cancellation if and only if the version matches and the execution runs |
| `AssistantEffects.CurrentApproveExactly` | backend/app/api/assistant.py:1030-1174 | on current tables an approve is accepted if and only if the approval is approved already, or open, in time, and the run waits at the expected version |
| `AssistantEffects.CurrentRejectExactly` | backend/app/api/assistant.py:1181-1279 | on current tables a rejection is accepted if and only if the approval is rejected already, or not approved and the execution runs at the expected version |
| `AssistantRuns.ServeStable` | backend/app/api/assistant.py:806-1279 | one request, with rows read at any earlier moment, keeps the invariant and everything that is settled: versions, decided approvals, grants, operations and the event log |
| `AssistantRuns.TransitionStable` | backend/app/assistant/repository.py:313-383 | a transition on a possibly stale reading keeps them too |
| `AssistantRuns.ResolveStable` | backend/app/assistant/repository.py:819-863 | so does resolving an approval with a fitting, unused grant |
| `AssistantHistory.RunOrderly` | backend/app/api/assistant.py:806-1279 | every state of every interleaving of requests and worker steps satisfies the invariant and is stable over all earlier states |
| `AssistantHistory.OneCommitPerVersion` | backend/app/assistant/repository.py:313-383 | no two commits of an execution produced the same version, so at most one request spends an expected version |
| `AssistantHistory.VersionCountsCommits` | backend/app/assistant/repository.py:313-383 | the commits of an execution number its version minus one and spell out a legal path of statuses |
| `AssistantHistory.ServeScope` | backend/app/api/assistant.py:806-1279 | a request moves no execution but its own, and not even that when its reading is terminal or outdated |
| `AssistantHistory.LateRequestMovesNothing` | backend/app/api/assistant.py:831-862 | a request that names a version the execution no longer has moves no execution |
| `AssistantHistory.TerminalUntouched` | backend/app/api/assistant.py:806-1279 | a request leaves the row of every terminal execution exactly as it is |
| `AssistantHistory.WorkTouchesTerminalRow` | backend/app/assistant/state_machine.py:139-156 | a worker step changes the row of a terminal execution exactly by a transition to the status it already has |
| `AssistantHistory.TerminalForever` | backend/app/api/assistant.py:806-1279 | over any further run a terminal execution keeps its row if and only if no worker step is a transition of it, from that version, to the status it already has |
| `AssistantHistory.WorkersCanTouchTerminalRows` | backend/app/assistant/state_machine.py:139-156 | a run from empty tables in which a worker bumps the version of a cancelled execution |
| `AssistantHistory.ReplayForever` | backend/app/api/assistant.py:442-464 | once an operation is on record, the same request read at any later moment answers what was recorded and changes nothing, whichever approval its URL names |
| `AssistantHistory.AcceptedIsRecorded` | backend/app/api/assistant.py:806-1279 | every accepted request is on record, with the answer its caller got unless an identical decision was recorded between its reading and its writing; for input and cancel always |
| `AssistantHistory.RacedDecisionAnswersAnew` | backend/app/api/assistant.py:1062-1074 | an approve or reject that is recorded by its duplicate between its reading and its writing answers with the row it read or moved to, and leaves the record alone |
| `AssistantHistory.AnswerIsStoredExactly` | backend/app/api/assistant.py:442-464 | the caller's answer is the stored one if and only if the request did not race a duplicate decision, or it read the approval as already decided and the duplicate recorded the very row it read |
| `AssistantHistory.DecidedOrMoved` | backend/app/api/assistant.py:1062-1174 | an accepted decision that was already taken when read is answered with the row read; any other answers with a version that is one above the current one |
| `AssistantHistory.ReplayExactly` | backend/app/api/assistant.py:442-464 | a request whose key is on record when read is accepted exactly if kind and payload match, with the stored response, and changes nothing |
| `AssistantHistory.ReplayIgnoresApproval` | backend/app/api/assistant.py:432-464 | a state of a run from empty tables in which a recorded approve, sent under an approval that does not exist, is answered with the stored response |
| `AssistantHistory.DuplicateAnswersDiffer` | backend/app/api/assistant.py:1062-1074 | a run from empty tables in which the two copies of an approve request get different answers |
| `AssistantHistory.ApproveTakesEffect` | backend/app/api/assistant.py:1030-1174 | an approve that reads the current tables, names the current version and a pending, unexpired approval succeeds |
| `AssistantHistory.ApprovalDecidedOnce` | backend/app/api/assistant.py:1030-1279 | an approval leaves pending at most once, and an approved one is bound to one grant of one side effect, no later expiry and no other approval |
| `AssistantHistory.NoUnboundGrant` | backend/app/api/assistant.py:1110-1161 | approving commits no grant but one that its approval is bound to: a lost race rolls the grant back |
| `AssistantHistory.ResolvedBindsOwnGrant` | backend/app/api/assistant.py:1122-1141 | resolving a pending reading fails or binds the given grant, so the branch for another grant is never taken |
| `AssistantHistory.ApprovedMovesWithItsGrant` | backend/app/api/assistant.py:1110-1161 | when approving moves the execution, approval and execution both carry the one new grant |
| `AssistantHistory.RejectedMovesWithItsApproval` | backend/app/api/assistant.py:1249-1268 | when rejecting cancels the execution, its approval ends rejected or expired |
| `EventCursor.PollExact` | backend/app/api/assistant.py:747-772 | one poll whose three queries may see three states keeps the client exactly caught up if and only if more was flagged or no own event arrived before the last query |
| `EventCursor.RunCaught` | backend/app/api/assistant.py:747-772 | in every interleaving of polls and commits from any session the client has at the end received exactly its own events between its cursors, if and only if every poll flagged more or had no own event arrive before its last query |
| `EventCursor.MissedForever` | backend/app/api/assistant.py:747-772 | an own event between the cursors that was not received is never received by any later poll |
| `EventCursor.NothingLostOrRepeated` | backend/app/api/assistant.py:747-772 | received events are in strict id order, and with those after the cursor they are all own events since the start |
| `EventCursor.PollProgress` | backend/app/api/assistant.py:747-772 | a poll fills its page and moves on, or leaves nothing outstanding with the cursor at the global top |
| `EventCursor.GapLosesEvent` | backend/app/api/assistant.py:763-767 | concrete case: an own event committed between the last two queries of a poll is never delivered, whatever steps follow |
| `HostConfirm.Host.AuthorizeCall` | backend/app/plugins/host_actions.py:298-359 | the part of confirm under the lock does to previews, intents, rows and calls what the specification says |
| `HostConfirm.Host.DecidePreview` | backend/app/plugins/host_actions.py:309-359 | an intent is created with the preview's answer, or nothing is written |
| `HostConfirm.Host.DispatchCall` | backend/app/api/assistant_actions.py:127-147 | an operation on record is the answer; otherwise the plugin is asked |
| `HostConfirm.Host.FinishCall` | backend/app/api/assistant_actions.py:141-157 | a reply counts only if it names a durable row of this request and action |
| `HostConfirm.Host.Remember` | backend/app/plugins/host_actions.py:131-135 | an admission becomes the preview's stored answer while the preview exists |
| `HostConfirm.RunGood` | backend/app/api/assistant_actions.py:105-157 | over every interleaving, rows stay unique and every accepted answer and stored answer names a row of its request |
| `HostConfirm.SameOperation` | backend/app/api/assistant_actions.py:105-157 | all accepted answers to one plugin, version, media session and request id name the same durable operation |
| `HostConfirm.NeverAskedAgain` | backend/app/api/assistant_actions.py:128-136 | once that operation exists no run of further steps asks the plugin about the request again |
| `HostConfirm.AnswersKeepAction` | backend/app/api/assistant_actions.py:128-157 | if a request id is never prepared for two actions, every accepted answer names an operation of its action |
| `HostConfirm.LookupIgnoresAction` | backend/app/api/assistant_actions.py:128-136 | the lookup answers a call with an operation of another action if and only if one is on record for its request; the check after the RPC never does |
| `HostConfirm.ReuseAnswersWrongly` | backend/app/api/assistant_actions.py:128-136 | a run from the empty host in which a request id used for two actions is answered with the wrong operation |
| `HostConfirm.EmptyHostGood` | backend/app/api/assistant_actions.py:105-157 | the empty host satisfies the invariant |
| `HostConfirm.AdmissionIsRemembered` | backend/app/plugins/host_actions.py:131-135 | after an admission the same preview is answered at once, without lookup or plugin |
| `ConfirmEffects.NothingUnconfirmed` | backend/app/plugins/host_actions.py:298-359 | on every run each operation on record is of a preview that was prepared and then confirmed by the user under the hash, context and media it was shown with, and a plugin is only asked about such a request |
| `ConfirmEffects.AuthorizeExactly` | backend/app/plugins/host_actions.py:298-359 | when a confirmation creates an intent, drops the preview, or does nothing |
| `ConfirmEffects.CallOpensExactly` | backend/app/plugins/host_actions.py:298-359 | exactly when a confirmation goes on to the plugin, and the call and preview it then leaves |
| `ConfirmEffects.AcceptedAtOnceExactly` | backend/app/plugins/host_actions.py:309-359 | exactly when a confirmation is answered at once with an accepted operation, stored or newly admitted |
| `ConfirmEffects.AsksExactly` | backend/app/api/assistant_actions.py:127-147 | the plugin is asked if and only if the preview is still there, nothing is on record, and the target is unchanged and runs |
| `ConfirmEffects.DispatchAnswersExactly` | backend/app/api/assistant_actions.py:127-141 | what is answered when the plugin is not asked |
| `ConfirmEffects.BelievedExactly` | backend/app/api/assistant_actions.py:141-157 | the plugin's reply is believed if and only if it names a durable row of this request and action |
| `PluginParser.ParseContext.ReadString` | frontend/lib/plugin-ui-schema.ts:439-444 | a string is accepted within its own bound and the running total, which it adds to |
| `PluginParser.ParseContext.ParseScalar` | frontend/lib/plugin-ui-schema.ts:137-379 | a scalar field reads as specified and is accounted for |
| `PluginParser.ParseContext.ParseCells` | frontend/lib/plugin-ui-schema.ts:204-212 | the cells of a row are read and counted |
| `PluginParser.ParseContext.ParseChildren` | frontend/lib/plugin-ui-schema.ts:381-387 | children are bounded, read one level deeper and accounted for in order |
| `PluginParser.ParseContext.ParseHeader` | frontend/lib/plugin-ui-schema.ts:127-137 | identifier, node count, type and allowed keys are checked and counted |
| `PluginParser.ParseContext.ParseComponent` | frontend/lib/plugin-ui-schema.ts:122-379 | the recursive parser with its mutable context accepts exactly the values that have a shape whose trace fits, returns that shape, and leaves the context at the sum |
| `PluginAccounting.AbsorbIsTotals` | frontend/lib/plugin-ui-schema.ts:76-87 | from an empty context the counters equal the independent totals of the trace: identifiers, nodes, characters, types, times and references |
| `PluginAccounting.FitsIsBounds` | frontend/lib/plugin-ui-schema.ts:127-135 | no running check fails if and only if identifiers are distinct, nodes at most 200 and characters at most 64,000 |
| `PluginView.ParseAction` | frontend/lib/plugin-ui-schema.ts:389-403 | an action needs a stable id and an allowed command name, whose length is counted |
| `PluginView.ClosingIsSound` | frontend/lib/plugin-ui-schema.ts:91-111 | the running checks together with the closing ones are exactly the conditions on the trace |
| `PluginView.ParseDocument` | frontend/lib/plugin-ui-schema.ts:66-120 | a document is accepted exactly when it reads as a view whose trace is sound |
| `PluginView.ParsePluginUIView` | frontend/lib/plugin-ui-schema.ts:44-64 | the verdict: accepted, invalid, or stale against the previous view |
| `PluginGuarantees.AcceptedIsBounded` | frontend/lib/plugin-ui-schema.ts:66-120 | every accepted view has at most eight levels and 200 distinct components, at most 64,000 characters, and every reference that the parser collected resolves to exactly one declared allowed command |
| `PluginTypes.AcceptedIsActionable` | frontend/lib/plugin-ui-schema.ts:88-111 | wherever in the tree of an accepted view, each button's `action_id` and each confirmation's `confirm_action_id` and `cancel_action_id` is the id of exactly one declared action with an allowed command, and each media anchor's `media_time_ms` is within the duration |
| `PluginTypes.AcceptedIsTyped` | frontend/types/plugin-ui.ts:13-166 | every component of an accepted view has its declared type: its fields in order, the optional ones perhaps missing, each within its limits |
| `PluginTypes.TableAgrees` | backend/app/plugins/ui_schema.py:54-234 | the parser knows exactly the declared component types, with their fields, upper limits, and choices with defaults |
| `PluginTypes.ScalarExactly` | frontend/lib/plugin-ui-schema.ts:439-476 | a scalar field is read if and only if it fits its type, and then as it stands |
| `PluginFidelity.AcceptedIsUnaltered` | frontend/lib/plugin-ui-schema.ts:44-120 | an accepted view, written as JSON, holds every field of the document at every level exactly as it was sent |
| `PluginFidelity.ShapeKept` | frontend/lib/plugin-ui-schema.ts:122-379 | the same for every component that is read, whatever the table of types |
| `PluginTypes.AcceptedActions` | frontend/lib/plugin-ui-schema.ts:88-95 | the actions of an accepted view are at most 32, with distinct stable ids and allowed commands |
| `PluginTypes.AcceptedExactly` | frontend/lib/plugin-ui-schema.ts:91-111 | which readable documents are refused for their contents: the six conditions on ids, counts, actions, overlays and anchors, both ways |
| `PluginTypes.OnlyNewerReplaces` | frontend/lib/plugin-ui-schema.ts:54-63 | a valid view is refused as stale if and only if the view shown before is of the same surface and id and not older |
| `PluginGuarantees.DepthBounded` | frontend/lib/plugin-ui-schema.ts:122-129 | every component of a shape sits at depth eight or less |
| `PluginGuarantees.OverlayIsOneNode` | frontend/lib/plugin-ui-schema.ts:96-101 | an accepted overlay is exactly one component |
| `PluginNormalForm.ShapeBack` | frontend/lib/plugin-ui-schema.ts:122-379 | what was read, written back and read again at the same depth is the same component |
| `PluginGuarantees.ParsingIsNormalForm` | frontend/lib/plugin-ui-schema.ts:44-64 | the accepted view, written as JSON and parsed with the same options, is accepted and identical |
| `PluginGuarantees.SafeViewIsAcceptable` | frontend/lib/plugin-ui-schema.ts:478-498 | the view shown after a failure is itself accepted, unless the duration is negative or a newer failure view is shown |
| `PluginGuarantees.StandardRulesTidy` | frontend/lib/plugin-ui-schema.ts:137-379 | every component type tells its fields apart and has defaults in range; which fields those are, `PluginTypes.TableAgrees` states |
| `ScriptEvidence.CheckCompatible` | backend/alembic/versions/20260808_0016_migrate_processed_scripts.py:95-115 | the check holds exactly when the items cover the snapshot, no section is empty and every item lies in exactly one section |
| `ScriptEvidence.CompatibleExactly` | backend/alembic/versions/20260808_0016_migrate_processed_scripts.py:95-115 | a package fits a script if and only if both are about the same segments and every item lies inside exactly one section |
| `ScriptEvidence.MatchScore` | backend/alembic/versions/20260808_0016_migrate_processed_scripts.py:118-136 | two points for the text and one for the times of every single-segment item |
| `ScriptEvidence.ScoreExactly` | backend/alembic/versions/20260808_0016_migrate_processed_scripts.py:118-136 | the score is twice the number of items with their source's text plus the number with its times |
| `ScriptEvidence.TextOutranksTimes` | backend/alembic/versions/20260808_0016_migrate_processed_scripts.py:118-136 | one more item with the right text outranks one more with the right times |
| `ScriptEvidence.CollectEvidence` | backend/alembic/versions/20260808_0016_migrate_processed_scripts.py:450-479 | the loop computes the evidence of every section, or fails on a section that cites nothing |
| `ScriptEvidence.SortedReferencesPartition` | scripts/verify_stage5_deepseek.py:111-120 | references that are a permutation of the distinct segment ids, in nonempty sections, make the sections a partition |
| `ScriptEvidence.CitedByExactlyOne` | backend/alembic/versions/20260808_0016_migrate_processed_scripts.py:104-114 | every source item is cited by exactly one section |
| `ScriptEvidence.EvidenceIsFaithful` | backend/alembic/versions/20260808_0016_migrate_processed_scripts.py:450-479 | for a partition and compatible items no minimum is taken over nothing, and each section's evidence names its own segments once each, the items inside it, and their earliest start and latest end |
| `ScriptEvidence.BuiltIsCompatible` | backend/alembic/versions/20260808_0016_migrate_processed_scripts.py:182-195 | a package built from the snapshot is compatible with the script |
| `ScriptEvidence.EmptySectionFails` | backend/alembic/versions/20260808_0016_migrate_processed_scripts.py:476-477 | with an empty section the migration of a built package fails |
| `ScriptMigration.PickIsBest` | backend/alembic/versions/20260808_0016_migrate_processed_scripts.py:367-398 | the chosen package has the highest score, and of those the lowest version; none is chosen only when none is compatible |
| `ScriptMigration.PickExactly` | backend/alembic/versions/20260808_0016_migrate_processed_scripts.py:367-398 | the same of the packages alone: of the session, frozen or superseded, compatible, with most text matches counted twice and time matches once, and of those the lowest version |
| `ScriptMigration.BuiltPackageExactly` | backend/alembic/versions/20260808_0016_migrate_processed_scripts.py:150-355 | a new package holds the snapshot as items, takes the next version of its session and is frozen if and only if the session had no package |
| `ScriptMigration.Database.FindCandidate` | backend/alembic/versions/20260808_0016_migrate_processed_scripts.py:367-398 | the candidate loop computes that choice |
| `ScriptMigration.Database.FindOrCreatePackage` | backend/alembic/versions/20260808_0016_migrate_processed_scripts.py:358-405 | the best candidate, else the package already built for this snapshot, else a new one with the next version |
| `ScriptMigration.Database.Upgrade` | backend/alembic/versions/20260808_0016_migrate_processed_scripts.py:408-511 | the loop migrates the scripts one after the other, skipping those with an artifact, and stops on a violated unique index |
| `ScriptMigration.Database.Downgrade` | backend/alembic/versions/20260808_0016_migrate_processed_scripts.py:514-558 | exactly the artifacts of this workflow and the packages under derived ids go; every other row stays |
| `ScriptMigration.FoundIsCompatible` | backend/alembic/versions/20260808_0016_migrate_processed_scripts.py:358-405 | for a sound script the package is compatible, whether found or built |
| `ScriptMigration.SoundScriptMigrates` | backend/alembic/versions/20260808_0016_migrate_processed_scripts.py:428-511 | one sound script migrates if and only if its package holds no clean script of its version |
| `ScriptMigration.UpgradeSucceedsExactly` | backend/alembic/versions/20260808_0016_migrate_processed_scripts.py:408-511 | over the whole run sound scripts migrate if and only if no chosen package held a clean script of the script's version before; scripts of one session never clash with each other |
| `ScriptMigration.VersionCanBeTaken` | backend/alembic/versions/20260808_0015_create_processing_artifacts.py:84-90 | a table on which the upgrade of a sound script fails |
| `ScriptMigration.GenuineStays` | backend/alembic/versions/20260808_0016_migrate_processed_scripts.py:150-355 | a package under a derived id stays the one that would be built for it |
| `ScriptMigration.UpgradeIsFaithful` | backend/alembic/versions/20260808_0016_migrate_processed_scripts.py:408-511 | every artifact that a successful upgrade adds cites one stored package of its session faithfully |
| `ScriptMigration.NoSecondFrozen` | backend/alembic/versions/20260808_0016_migrate_processed_scripts.py:317-333 | the upgrade never makes a second frozen package for a session |
| `ScriptMigration.VersionsStayApart` | backend/alembic/versions/20260808_0016_migrate_processed_scripts.py:175-180 | a package that is built gets a version its session has not used |
| `ScriptMigration.UpgradeIsIdempotent` | backend/alembic/versions/20260808_0016_migrate_processed_scripts.py:428-434 | running the upgrade again changes nothing |
| `ScriptMigration.DowngradeRestores` | backend/alembic/versions/20260808_0016_migrate_processed_scripts.py:514-558 | the downgrade takes the upgrade back if and only if nothing of this migration was there before |
| `ArtifactIdentity.Artifacts.AssignIdentities` | backend/alembic/versions/20260810_0017_artifact_review_identity.py:81-88 | every row gets its identity, or the migration stops because one has none |
| `ArtifactIdentity.Artifacts.SupersedeOlder` | backend/alembic/versions/20260810_0017_artifact_review_identity.py:98-115 | in each group an approved row stays approved unless a later one is approved too; nothing else changes |
| `ArtifactIdentity.Artifacts.Upgrade` | backend/alembic/versions/20260810_0017_artifact_review_identity.py:49-115 | the upgrade as a condition on each row |
| `ArtifactIdentity.ExactlyOneApproved` | backend/alembic/versions/20260810_0017_artifact_review_identity.py:90-115 | every group that had an approved row keeps exactly one: its highest version, then the last one created, then the last id |
| `ArtifactIdentity.UpgradeKeepsTheRest` | backend/alembic/versions/20260810_0017_artifact_review_identity.py:49-115 | the upgrade changes nothing of a row but its identity, and its status only from approved to superseded |
| `ArtifactIdentity.IdentifiableExactly` | backend/alembic/versions/20260810_0017_artifact_review_identity.py:29-46 | a row gets no identity if and only if it needs a language or a target and has none |
| `ArtifactIdentity.SameIdentityExactly` | backend/alembic/versions/20260810_0017_artifact_review_identity.py:29-46 | two rows get one identity if and only if they are of one kind and about the same language or target |
| `ArtifactIdentity.NewUniqueExactly` | backend/alembic/versions/20260810_0017_artifact_review_identity.py:117-134 | under the old constraints the new one holds if and only if rows of one identity that differ in kind or language differ in version |
| `ArtifactIdentity.LanguagesCanClash` | backend/alembic/versions/20260810_0017_artifact_review_identity.py:117-134 | concrete case: without that the new constraint can fail on a table that satisfies the old ones |
| `ArtifactIdentity.RegularFixes` | backend/alembic/versions/20260810_0017_artifact_review_identity.py:29-46 | kinds without a colon and languages only on translations make identities fix kind and language |
| `ArtifactIdentity.RegularUpgrades` | backend/alembic/versions/20260810_0017_artifact_review_identity.py:117-134 | on such a table the new constraint follows from the old ones |
| `ArtifactIdentity.Artifacts.Downgrade` | backend/alembic/versions/20260810_0017_artifact_review_identity.py:144-190 | given the constraint in force, the downgrade succeeds if and only if no row would meet another of its identity when shifted or renumbered; then the rows are numbered by rank |
| `ArtifactIdentity.ShiftNeverClashes` | backend/alembic/versions/20260810_0017_artifact_review_identity.py:159-163 | whatever rows the table-wide update has reached, shifting one more does not clash when no two versions of one identity are 1,000,000 apart |
| `ArtifactIdentity.GapClashes` | backend/alembic/versions/20260810_0017_artifact_review_identity.py:159-163 | and with two such versions an update that reaches the lower one first does clash |
| `ArtifactIdentity.NoGapIsSafe` | backend/alembic/versions/20260810_0017_artifact_review_identity.py:159-163 | without versions 1,000,000 apart the shift is safe |
| `ArtifactIdentity.RenumberClashExactly` | backend/alembic/versions/20260810_0017_artifact_review_identity.py:172-185 | a renumbering step clashes exactly with a row of its identity, renumbered or still shifted, at its new number |
| `ArtifactIdentity.RenumberNeverClashes` | backend/alembic/versions/20260810_0017_artifact_review_identity.py:172-185 | versions from 1, at most 1,000,000 rows to a series and identities that fix kind and language make the renumbering safe |
| `ArtifactIdentity.RankInRange` | backend/alembic/versions/20260810_0017_artifact_review_identity.py:172-185 | the numbers of a series rise in creation order from 1 to its size |
| `ArtifactIdentity.RankExactly` | backend/alembic/versions/20260810_0017_artifact_review_identity.py:172-185 | the number of a row is how many rows of its package, kind and language were created up to it |
| `ArtifactIdentity.RankOnto` | backend/alembic/versions/20260810_0017_artifact_review_identity.py:172-185 | and every number in that range is given out |
| `ArtifactIdentity.RenumberedIsOldUnique` | backend/alembic/versions/20260810_0017_artifact_review_identity.py:187-207 | after the downgrade the old constraints hold |
| `ArtifactIdentity.CreationOrderSorted` | backend/alembic/versions/20260810_0017_artifact_review_identity.py:164-171 | the rows are read in the one order by creation time and id |
| `ArtifactIdentity.CreationOrderExactly` | backend/alembic/versions/20260810_0017_artifact_review_identity.py:164-171 | the rows read are the rows there are, by creation time and then by id |
| `RuntimeRegistry.Registry.Update` | backend/app/diagnostics/runtime.py:24-35 | an empty id is refused; otherwise the session becomes the newest and the oldest are evicted down to the bound |
| `RuntimeRegistry.Registry.Get` | backend/app/diagnostics/runtime.py:37-41 | a hit returns the value and makes the session the newest; a miss changes nothing |
| `RuntimeRegistry.RunBounded` | backend/app/diagnostics/runtime.py:24-41 | on every run the registry stays within its bound and holds no session twice |
| `RuntimeRegistry.RunLatest` | backend/app/diagnostics/runtime.py:24-41 | a kept session always shows the value of its last update |
| `RuntimeRegistry.KeptExactly` | backend/app/diagnostics/runtime.py:24-41 | after any operations that follow an update of a session, the registry holds it if and only if fewer other sessions than the bound have been touched since it last was; reads that miss do not count |
| `RuntimeRegistry.LargerHoldsMore` | backend/app/diagnostics/runtime.py:24-41 | on the same operations a registry with a larger bound holds every session of a smaller one with the same value |
| `RuntimeRegistry.StaysNewestExactly` | backend/app/diagnostics/runtime.py:24-41 | where the smaller registry is the newest part of the larger, a step keeps that if and only if it does not read a session that only the larger holds |
| `RuntimeRegistry.NotAlwaysNewest` | backend/app/diagnostics/runtime.py:37-41 | concrete case: a read can reorder the larger registry alone, so the smaller need not be its newest part |
| `PackageFraming.AssetsDigest` | backend/scripts/package_plugin.py:161-169 | the loop feeds the hash exactly the framed assets in name order, or fails on a name too long for its length field |
| `PackageFraming.FramesBack` | backend/scripts/package_plugin.py:161-169 | decoding a stream of frames gives back the frames |
| `PackageFraming.PreImageDecodes` | backend/scripts/package_plugin.py:161-169 | decoding the pre-image gives the encoded name and content hash of every asset in name order |
| `TextOrder.BeforeExactly` | backend/scripts/package_plugin.py:161-169 | names are ordered by the first character in which they differ, a prefix first |
| `PackageFraming.ByNameExactly` | backend/scripts/package_plugin.py:161-169 | the assets are framed in strictly rising order of their names, each once |
| `PackageFraming.OrderIndependent` | backend/scripts/package_plugin.py:161-169 | the pre-image does not depend on the order in which the assets were listed |
| `PackageFraming.PreImageDetermines` | backend/scripts/package_plugin.py:161-169 | equal pre-images have the same names with the same content hashes |
| `PackageFraming.PartsBack` | backend/scripts/package_plugin.py:113-120 | the signed material splits from its end into manifest, image digest and assets digest |
| `PackageFraming.MaterialDetermines` | backend/scripts/package_plugin.py:113-120 | the signed material determines the manifest bytes and both digests |

## Left out

- `Intl.Segmenter`: text is a sequence of graphemes, each with the one class that the regular expressions can tell; a grapheme that mixes classes is not modelled.
- Languages: only whether a language is written with spaces, which is all the layout asks.
- Floating point: widths, fill ratios and times are exact reals, and rounding is the floor of x + 1/2. Infinite and not-a-number values are typed out, as are negative widths, which the source rejects.
- Display ids of cues are triples, not the text assembled from them.
- `localeCompare` is any strict total order on segment ids.
- Caption event envelopes and their validation, session progress, metrics and errors beyond the fields of the state.
- `AssistantApi`: request digests are the requests themselves; an answer is the execution row, without approvals and effects in its summary; scheduling after a commit is not modelled, and neither are other writers of an approval or a deleted row.
- `AssistantApi`: a handler reads all its rows from one state; separate statements of one request that see separate commits are not modelled. A row read again by its key is the row the session already holds, unless the session itself updated it.
- `EventCursor`: ids grow in commit order; a database that commits ids out of order is not modelled.
- `HostConfirm`: building and comparing scopes, nonces and preview expiry are choices of the environment; the view refresh after an analysis action and argument payloads are not modelled.
- `PluginSchema`: the cases of the component switch are a table of fields, read in the order of the output; the source reads a few of them in another order, which changes no result because all errors are alike.
- `PluginTypes.TableAgrees`: the server's least lengths of some strings and its default of an empty list, neither of which the browser's parser has; the bound on whole numbers is the browser's alone.
- `PluginShape.Leaf`: markdown safety is a parameter; string length is the length of the modelled sequence.
- `ScriptMigration`: sessions, manifests, the index and metadata documents and their hashes; identifiers derived by hashing are terms that determine their parts.
- `ScriptMigration.Database.Downgrade`: foreign keys, which the migration's own connection does not enforce.
- `ArtifactIdentity`: schema changes themselves; a table has no order, so the downgrade model lists it in creation order.
- `ArtifactIdentity.Artifacts.Downgrade`: the table-wide shift is modelled in creation order; `ArtifactIdentity.ShiftNeverClashes` is about every order.
- `PackageFraming`: the hash, the text encoding and the signature itself; canonical JSON.
- `RuntimeRegistry.Registry`: report times; the registry holds any value.
- React components and hooks, media capture, Picture-in-Picture, LiveKit and canvas measurement.
- HTTP clients, routers for health, tokens, exports, packages and plugins, scripts that start or smoke-check the system: plumbing over other code.
- Settings, log redaction, language tables, status maps, preferences and the small sidebar and manager reducers: true but easy.
- Migrations that only change the schema: their unique constraints are used, nothing else.
