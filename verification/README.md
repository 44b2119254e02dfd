# Orchestrail: a verified model of its crash-safe kernels

Orchestrail coordinates work over several repositories through plain files: a Markdown queue and
archive, per-task descriptors, inboxes of JSON messages, a shared dependency registry, approval
records and an event stream. Every file is replaced atomically, and everything between two
replacements may be interrupted by a crash or by another process. This project models the kernels
that make that safe, and proves what they are for.

| module | kernel | main results |
|---|---|---|
| `InboxDelivery`, `InboxChanges`, `InboxRetry`, `InboxCall` | final replies between two inboxes | delivered once over every run; every field a delivery changes; exactly when a retry succeeds |
| `JsonLine`, `JsonTopLevel` | the JSON line scanner | reads back every printed object; undoes the string escaper |
| `EffectLedger`, `Execution` | the effect driver over the durable ledger | which command answers which effect; termination, first in first out, justified removals, nothing left behind at rest |
| `QueueText`, `QueueBreaks`, `StatusText`, `LineFields` | the Markdown queue and descriptors as text | editing one row or field and reading it back, whatever is written |
| `ControlPlane`, `PatchFields`, `ControlRuns`, `ControlMoves`, `ControlFiles` | capture, patch, re-anchor, repair | every field of a patched descriptor; the retry counter, published states and risk over every run; where a row may move |
| `ArchiveText`, `Archive`, `ArchiveKeeps`, `ArchiveRuns` | archiving a finished task | the task is put in and all else is kept; crashes anywhere lead to the state of an uninterrupted run |
| `ConfigFields`, `ConfigDiscovery` | `config.md` and its discovery | discovery adds exactly the sound commands and means the same otherwise |
| `CommandLine` | typed command lines | decoding is the inverse of quoting; no operator outside quotes |
| `Registry`, `RegistrySync` | the dependency registry | exactly when a sync changes what; at most one change per generation |
| `Approval` | one-time approvals | injective identity; what a mutation does or why it is refused; decisions stand |
| `ForgeCi` | the CI gate | exactly when it passes, and fails, and with which check; bounded polling |
| `InboxLinks` | message provenance | the link relation; idempotent, cut-safe reconciliation |
| `Fingerprint` | the final-state fingerprint | what it is a digest of; independent of cutting, replay, order and spelling |
| `FileCache` | the TUI's file cache | every answer is current, while a writer runs; a file at rest is read once |
| `WatchLoop` | cohorts, waves and waits | what may follow what; bounded backoff; distinct batch ids |

`Text` and `Sorting` hold what the Rust standard library does to strings. Loops and objects of the
source are methods and classes here; each is tied to a function, and the lemmas are about those
functions. Where a crash can fall between two file replacements, an operation is a sequence of
atomic steps and the results are about every state of every run.

## Results about the code that its documentation does not mention

- A first reply is written without being parsed. If the candidate body has a NUL character, or a
  registered project's name is only blanks, a crash after that write leaves a record that no retry
  accepts (`InboxRetry.StrandedWhen`, `InboxRetry.NulStrandsRetries`,
  `InboxRetry.BlankNameStrandsRetries`).
- A status is read back as written only if the row's header has the status keyword in lower case or
  the status does not contain it (`QueueText.StatusRoundTrip`, `QueueText.TitleCaseHeader`,
  `QueueText.TitleCaseExample`).
- A batch, worktree or branch name, or a conflict reason, that contains ` · попытка=` replaces the
  retry counter (`StatusText.CaptureKeepsCounter`, `StatusText.HiddenCounterWins`,
  `StatusText.PatchKeepsCounter`, `ControlRuns.CaptureKeeps`, `ControlRuns.PatchKeeps`).
- `capture_task` does not check its worktree for line breaks. One with a risk line in it can lower
  the risk of the descriptor (`ControlRuns.CaptureRisk`, `ControlRuns.LoweredRisk`); one with a
  line that starts with another task's heading makes that task's row ambiguous
  (`QueueBreaks.RewriteThenOthers`, `ControlRuns.OtherCounter`). A published descriptor is never
  touched by a capture (`ControlRuns.CaptureLeavesPublished`).
- `patch_descriptor` does not check batch, branch, worktree and author for line breaks. One with a
  status line in it can move a published descriptor back (`ControlPlane.PublishedStays`,
  `ControlRuns.BrokenWorktree`), and one with a risk line can lower the risk
  (`ControlPlane.RiskStays`).
- Descriptor fields are read from trimmed lines but written to unindented ones, so an indented
  status line makes the archive fail after the row is gone (`LineFields.SetFieldReads`,
  `ArchiveRuns.ArchiveSurvivesCrashes`, `ArchiveRuns.IndentedStatusFails`).
- A product such as `cargo: :x` is accepted into the registry and makes the whole registry
  unreadable (`Registry.ColonNameAccepted`, `RegistrySync.ChangeIsSwap`).
- A file that is created and removed within one load is pinned in the TUI cache under the stamp of
  a missing file (`FileCache.SoundAfterRead`, `FileCache.FlickerIsPinned`).

## Model

| member | source | states |
|---|---|---|
| `InboxDelivery.NextKeeps` | engine/src/inbox.rs:303-417 | every step of the system (a delivery action, an error, a crash, an operator clearing a dead lock, an edit by an inbox owner) keeps the protocol invariant and every message's content |
| `InboxDelivery.ExactlyOnce` | engine/src/inbox.rs:317-326 | in every reachable state final marker, reply id and remark occur together and at most once; final implies the reply lies in the sender's inbox and answers the original; no other inbox holds it |
| `InboxDelivery.ContentNeverChanges` | engine/src/inbox.rs:600-629 | over every run a message once written stays, with its sender-owned content, and a final marker stays |
| `InboxDelivery.CallIsOutcome` | engine/src/inbox.rs:303-417 | an undisturbed call, step by step, does nothing, or posts the reply only, or completes the whole delivery, exactly as its guards decide; what that changes is `InboxChanges.CallChanges` |
| `InboxDelivery.FinishIsRun` | engine/src/inbox.rs:303-417 | running one process to its end is a run of single actions of the system, and it ends |
| `InboxDelivery.AloneWithLock` | engine/src/inbox.rs:672-706 | whoever holds an inbox lock has it alone |
| `InboxChanges.CallChanges` | engine/src/inbox.rs:303-417 | an undisturbed call that succeeds adds the reply, the reply id, one remark, the marker and the time, and removes the candidate; one that is refused changes nothing or posts the reply; every other file stays |
| `InboxChanges.NewReplyIs` | engine/src/inbox.rs:494-543 | every field of a new reply: sender and receiver with their registered names, as much of the subject as fits, original, conversation |
| `InboxChanges.MessagesOnlyGrow` | engine/src/inbox.rs:372-416 | over every run remarks and reply ids only grow, processing and links change by an edit of the owner alone, and only terminal messages become final |
| `InboxRetry.AnswerParses` | engine/src/inbox.rs:494-543 | a composed reply passes the message parser exactly when both project names are visible and its body has no NUL |
| `InboxRetry.RetryEndsFinal` | engine/src/inbox.rs:303-417 | after any run with all locks free, a retry ends final, with processing and links kept, one remark and one reply id added and the candidate removed, if and only if the message is pending, both ends are registered and open, and a reply already delivered has the same body and is parseable; otherwise it changes nothing |
| `InboxRetry.UnchangedCandidateRetries` | engine/src/inbox.rs:264-271 | from any crash point, an unchanged candidate without NUL (and visible names) makes an uninterrupted retry end final |
| `InboxRetry.StrandedWhen` | engine/src/inbox.rs:357-369 | after a crash right behind the first write every retry fails, and changes nothing, exactly if the body has a NUL or a project is registered under a name of blanks |
| `InboxRetry.NulStrandsRetries` | engine/src/inbox.rs:357-369 | a concrete reachable state with a NUL in the body, the crash, and the failing retry |
| `InboxRetry.BlankNameStrandsRetries` | engine/src/inbox.rs:357-369 | the same with a project named by one blank |
| `InboxCall.Inboxes.DeliverFinalReply` | engine/src/inbox.rs:303-417 | the imperative call, with its locks and file replacements, has the effect of the run of single actions: all of a delivery, field by field, the reply alone, or nothing |
| `InboxCall.Inboxes.Post` | engine/src/inbox.rs:348-370 | the target half: reply created or found identical under the target lock, or refused with nothing changed |
| `InboxCall.Inboxes.Mark` | engine/src/inbox.rs:372-416 | the source half: marker, reply id, remark and time are recorded and everything else in the message kept, and the candidate removed, under the source lock; or refused |
| `JsonLine.ReadString` | engine/src/jsonline.rs:101-167 | the loop over characters computes the scanner function, escapes and surrogate pairs included |
| `JsonLine.ScanReadsMeaning` | engine/src/jsonline.rs:101-167 | every spelling of a string (RFC 8259 section 7) scans to the text it stands for, ending just past the quote |
| `JsonLine.ScannedIsSpelling` | engine/src/jsonline.rs:101-167 | conversely whatever the scanner accepts is such a spelling |
| `JsonLine.EscapeRoundTrip` | engine/src/jsonline.rs:101-167 | scanning undoes escaping for every text and every choice of escapes |
| `JsonLine.UnpairedSurrogate` | engine/src/jsonline.rs:125-150 | an unpaired surrogate escape reads as U+FFFD and consumes only itself |
| `JsonTopLevel.TopLevel` | engine/src/jsonline.rs:48-98 | the loop over index and depth computes the lookup function |
| `JsonTopLevel.SkipValue` | engine/src/jsonline.rs:212-254 | the skipping loop computes the skip function |
| `JsonTopLevel.ReadValue` | engine/src/jsonline.rs:170-195 | the scalar reader computes its function |
| `JsonTopLevel.SkipsValue` | engine/src/jsonline.rs:212-254 | skipping any printed value, nested as it may be, stops exactly at its end |
| `JsonTopLevel.ReadsScalar` | engine/src/jsonline.rs:170-195 | a printed scalar is read back, and an object or array is not a scalar |
| `JsonTopLevel.TopLevelReadsRoot` | engine/src/jsonline.rs:48-98 | for every printed object and key, the first member of that key when it is a scalar, and nothing otherwise |
| `CommandLine.ParseTypedArgv` | engine/src/command_line.rs:13-68 | the tokenizer loop computes the decoder function |
| `CommandLine.ParsesExactly` | engine/src/command_line.rs:13-68 | every command line of the quoting grammar decodes to its arguments, if its program is direct |
| `CommandLine.AcceptedIsCommand` | engine/src/command_line.rs:13-68 | every accepted line is of that grammar, with every shell operator inside quotes |
| `CommandLine.QuotingRoundTrip` | engine/src/command_line.rs:13-103 | decoding undoes double-quoting for every NUL-free argv with an allowed program |
| `CommandLine.ShellRefused` | engine/src/command_line.rs:74-103 | a program is refused exactly if its file name names a shell, whatever its directory, letter case, ending, trailing dots and spaces |
| `Execution.CollectBatch` | engine/src/execution.rs:490-519 | the batch loop computes the batch at the front of the queue |
| `Execution.BatchIsSortedFront` | engine/src/execution.rs:485-519 | the batch is the longest front run of markers and distinct-task leaves, its effects exactly those leaves in rising order of task id |
| `Execution.FrontMaximal` | engine/src/execution.rs:490-513 | the run ends at another kind of effect or at a repeated task |
| `Execution.RoundCounts` | engine/src/execution.rs:178-291 | every round makes progress and never passes the step limit |
| `Execution.DriveAccounts` | engine/src/execution.rs:168-293 | a drive does at most the allowed steps, and every entry that left the ledger left by a command that answers its effect, an allowed bare acknowledgement or a same-task inspection |
| `Execution.QuiescentDischarges` | engine/src/execution.rs:159-293 | a drive that comes to rest leaves only entries that were there before and were not queued |
| `Execution.UnservedStay` | engine/src/execution.rs:216-239 | when a batch stops, the effect it stopped at and all later ones keep their entries |
| `Execution.DoneDischarges` | engine/src/execution.rs:361-421 | a served effect's own entry is gone unless its successors put it back |
| `Execution.CommandKeys` | engine/src/runtime.rs:298-405 | a command removes exactly the entry it acknowledges and adds what it emits |
| `EffectLedger.AckIs` | engine/src/runtime.rs:1059-1158 | a command acknowledges an effect's key exactly if it answers the effect: the result of an implementation while implementing, of a fix while fixing, of a review, a commit and so on |
| `EffectLedger.KeysTellApart` | engine/src/runtime.rs:1160-1230 | two effects have one key exactly if they are one obligation |
| `EffectLedger.InsertExactly` | engine/src/runtime.rs:337-346 | emitted effects come into the ledger exactly if no obligation would stand for two effects, and then it holds the old ones and these |
| `Execution.CommandServes` | engine/src/runtime.rs:298-405 | an answer is accepted exactly if its effect is owed, the reducer takes it and what it emits is compatible; then that obligation alone is traded for the emitted ones |
| `Execution.SubmitServes` | engine/src/execution.rs:530-545 | a submitted result is done exactly if it answers its effect and is accepted; any other leaves state, ledger and queue as they are |
| `Execution.ReconciledServes` | engine/src/execution.rs:380-402 | an inspection is done exactly if what it brings answers an owed effect of its task; then both are gone |
| `Execution.AcknowledgeServes` | engine/src/execution.rs:403-418 | a bare acknowledgement is done exactly for an owed effect that needs no result |
| `Execution.DriveTakes` | engine/src/execution.rs:168-293 | effects are served in the order they were queued, emitted ones behind; one step is counted for each unless the drive stops |
| `Execution.DriveKeyed` | engine/src/runtime.rs:178-192 | every ledger entry stays under its effect's own key |
| `Execution.Driver.Drive` | engine/src/execution.rs:168-293 | the driver loop over the mutable runtime computes the drive function, with its accounting and discharge results, and keeps every entry under its own key |
| `Execution.Driver.ApplyAt` | engine/src/runtime.rs:298-405 | state, ledger and queue after a command, or nothing changed; an answer to an effect trades that obligation for what it emits |
| `Execution.Driver.Discharge` | engine/src/runtime.rs:419-444 | a bare acknowledgement removes one entry, or nothing changed |
| `QueueText.FindInParts` | engine/src/control.rs:1334-1389 | what finding a task reports depends on that task's blocks alone |
| `QueueText.ReplaceStatusParts` | engine/src/control.rs:1399-1406 | rewriting a status rewrites one block; no block appears or disappears |
| `QueueText.RemoveBlockParts` | engine/src/control.rs:1422-1427 | removing takes out exactly one block, and nothing new appears at the seam |
| `QueueText.ReplaceThenFind` | engine/src/control.rs:1334-1406 | after a rewrite the task shows the new status and every other task is seen as before |
| `QueueText.RemoveThenFind` | engine/src/control.rs:1422-1431 | after a removal the task is absent and every other task is seen as before |
| `QueueText.StatusRoundTrip` | engine/src/control.rs:1359-1406 | the status read back is the one written exactly when the header has the lower-case keyword or the status does not |
| `QueueText.TitleCaseHeader` | engine/src/control.rs:1359-1406 | in a row with the title-case keyword, only what follows the lower-case keyword in a new status is read back |
| `QueueText.TitleCaseExample` | engine/src/control.rs:1359-1406 | a concrete row and status of which only the last word is read back |
| `QueueText.OneOwner` | engine/src/control.rs:1340-1350 | two tasks never own the same block |
| `QueueBreaks.RewriteThenShow` | engine/src/control.rs:1334-1406 | whatever status is written, line breaks included, the row shows its first line read behind the keyword, unless a later line starts with the row's own heading |
| `QueueBreaks.RewriteThenOthers` | engine/src/control.rs:1334-1406 | another task is seen as before exactly if no later line of the status starts with its heading or it was ambiguous already; a row that could be read becomes ambiguous |
| `StatusText.CaptureKeepsCounter` | engine/src/control.rs:228-235 | a capture keeps the retry counter exactly when no recorded name hides another one |
| `StatusText.PatchKeepsCounter` | engine/src/control.rs:349-361 | a non-escalating patch keeps the counter exactly when its reason hides no other one |
| `StatusText.HiddenCounterWins` | engine/src/control.rs:1411-1414 | a concrete batch name that replaces the counter |
| `StatusText.LiteralStatus` | engine/src/control.rs:1525-1537 | a literal with a counter reads back as its state and counter |
| `StatusText.PrintParses` | engine/src/control.rs:1411-1420 | printed counters parse back, up to 32 bits |
| `StatusText.TrimmedAttempt` | engine/src/state/canonical.rs:177-182 | a counter is read the same from a status and from its trimmed form |
| `LineFields.LinesShown` | engine/src/state/util.rs:122-126 | a text written from lines, some with line breaks in them, is read as the lines those show |
| `LineFields.SetFieldReads` | engine/src/control.rs:1511-1523 | the value read is the first line of the value set, unless an indented line with the field comes first, which then stays the one read |
| `LineFields.OtherFieldReads` | engine/src/control.rs:1511-1523 | every other field reads as before, unless a continuation line of the value has it and no line with it stands ahead; then it reads from that line |
| `LineFields.ShadowStays` | engine/src/control.rs:1511-1523 | setting one field brings no other into or out of a shadow, unless the value has a line of it |
| `LineFields.WriteField` | engine/src/control.rs:1511-1523 | the loop over lines computes the edit |
| `ControlPlane.PatchReads` | engine/src/control.rs:247-319 | for every patch, line breaks included: the state read is its own, or the old one if shadowed, or the last one its names bring along; the risk read is the raised one, or one brought along, or the old one |
| `ControlPlane.PublishedStays` | engine/src/control.rs:247-319 | a published descriptor stays published or becomes done exactly if no name in the patch brings another status along |
| `ControlPlane.RiskStays` | engine/src/control.rs:289-309 | the risk read does not fall exactly if no name brings a lower one along or the patch's own risk line is read |
| `ControlPlane.SilentKeeps` | engine/src/control.rs:265-285 | names of which no continuation line has a field bring no such field along |
| `ControlPlane.ElevatedReads` | engine/src/control.rs:289-309 | an elevated risk reads back as that risk |
| `PatchFields.PatchGives` | engine/src/control.rs:247-319 | after an accepted patch each field it gives reads as the first line of its value unless shadowed, and every other field, known or not, reads as before; for fields that no name brings along |
| `PatchFields.PatchAccepted` | engine/src/control.rs:251-312 | a patch is accepted exactly if the state may change so, the risk does not fall and the commit is a reference |
| `PatchFields.Lifecycle` | engine/src/control.rs:1539-1565 | the legal transitions: one step on the way, back from review, aside while captured, again after a conflict |
| `PatchFields.AuthorsGrow` | engine/src/control.rs:275-281 | the authors named afterwards are those named before and the new one, unless it was the last already |
| `PatchFields.CompactWords` | engine/src/control.rs:1588-1591 | a reason is its words with single blanks |
| `ControlRuns.RowRewritten` | engine/src/control.rs:1399-1414 | a status of one line without the keyword is read back with its state and counter |
| `ControlRuns.OtherRowStays` | engine/src/control.rs:1399-1406 | no status of one line changes another row |
| `ControlRuns.OwnCounter` | engine/src/control.rs:209-242 | an operation, wherever it is cut, keeps its row's counter exactly if it has not written the row or what the row shows afterwards has that counter |
| `ControlRuns.CaptureKeeps` | engine/src/control.rs:228-235 | for a one-line worktree the counter is kept exactly if no recorded name hides another one, unless a name brings a keyword that the header lacks |
| `ControlRuns.PatchKeeps` | engine/src/control.rs:349-361 | the same for a non-escalating patch and its reason |
| `ControlRuns.ReturnKeeps` | engine/src/control.rs:427-454 | a return keeps the counter exactly if it is given the one the row shows |
| `ControlRuns.OtherCounter` | engine/src/control.rs:1334-1406 | an operation on one task keeps the counter of any other row that can be read exactly if no line of a captured worktree starts with that row's heading |
| `ControlRuns.CounterOverRuns` | engine/src/control.rs:321-362 | over every run of cut or completed operations that spare it, a row's counter stays |
| `ControlRuns.CutCaptureRepaired` | engine/src/control.rs:427-454 | a capture cut between its writes and then repaired leaves the row not started with the same counter, the descriptor gone and nothing else changed |
| `ControlRuns.StepReaches` | engine/src/control.rs:837-928 | what any step, cut anywhere, does to a descriptor: applies its patch whole, moves merged to ready, removes one that is not published, or nothing |
| `ControlRuns.CaptureLeavesPublished` | engine/src/control.rs:209-242 | no capture, whatever its worktree and wherever it is cut, changes a published descriptor |
| `ControlMoves.WritesWhen` | engine/src/control.rs:209-928 | each operation writes exactly if its guards allow it, and at most two files |
| `ControlMoves.RowMoves` | engine/src/control.rs:209-454 | wherever an operation is cut, its row stays in its state or makes the one move of that operation |
| `ControlMoves.DescriptorGoes` | engine/src/control.rs:837-928 | no operation touches another descriptor, and its own goes only when the task is over or was never captured |
| `ControlMoves.EscalatedDrops` | engine/src/control.rs:349-361 | an escalated row loses its counter |
| `ControlRuns.StepPublished` | engine/src/control.rs:837-928 | a step leaves a published descriptor published or done exactly if it brings no other status along |
| `ControlRuns.PublishedOverRuns` | engine/src/control.rs:1539-1565 | over every run of operations cut anywhere a published descriptor stays published until it is done, exactly if no patch up to then brings another status along |
| `ControlRuns.SilentRuns` | engine/src/control.rs:247-319 | so it does when no patch of the task has a status line in a name, whatever the captures |
| `ControlRuns.StepRisk` | engine/src/control.rs:289-309 | a step leaves the risk at least what it was exactly if it brings no lower one along |
| `ControlRuns.CaptureRisk` | engine/src/control.rs:209-242 | a capture lowers no risk exactly if no continuation line of its worktree has a lower one, or a risk line stands ahead of the line it writes |
| `ControlRuns.RiskOverRuns` | engine/src/control.rs:289-309 | over every run the risk never falls exactly if no step brings a lower one along, and then it ends at least as high as it began |
| `ControlRuns.SilentRisk` | engine/src/control.rs:289-309 | so it is when no captured worktree and no name in a patch has a risk line |
| `ControlRuns.LoweredRisk` | engine/src/control.rs:209-242 | a concrete queue, descriptor and worktree with which a capture makes a high risk low |
| `ControlRuns.BrokenWorktree` | engine/src/control.rs:247-319 | a concrete patch whose worktree moves a published descriptor back to not started |
| `ControlFiles.Files.CaptureTask` | engine/src/control.rs:209-242 | the two file replacements of a capture, in order; every field of the descriptor afterwards |
| `ControlFiles.Files.PatchTask` | engine/src/control.rs:247-319 | one replacement after which each given field reads as its value and every other as before, or none |
| `ControlFiles.Files.ReanchorMergedTask` | engine/src/control.rs:370-421 | both artifacts checked before either is replaced; succeeds exactly if both allow it, also with nothing to change, and for no ill-formed id |
| `ArchiveText.SectionsWhole` | engine/src/control.rs:1440-1466 | preamble and sections make up the whole archive |
| `ArchiveText.SectionsJoin` | engine/src/control.rs:1440-1466 | the sections of two texts one after the other |
| `ArchiveText.SplitSections` | engine/src/control.rs:1440-1466 | the text in front of a section ends in a whole line and holds exactly the earlier sections |
| `ArchiveText.HeaderTrimEnd` | engine/src/state/util.rs:61-93 | whether a line is an archive header does not depend on blanks behind it |
| `ArchiveText.BracketForm` | engine/src/state/util.rs:61-93 | two or three hashes and a task id in brackets, blanks anywhere around, are a header; four are none |
| `ArchiveText.LegacyForm` | engine/src/state/util.rs:61-93 | one hash, the two older words in letters of any case and an id are a header |
| `Archive.WrittenSection` | engine/src/control.rs:1489-1504 | the text written is one section of the task with exactly one metrics marker |
| `Archive.ProjectionCompletes` | engine/src/control.rs:741-805 | a projection yields one section with one marker, and projecting again changes nothing |
| `ArchiveKeeps.ProjectionLands` | engine/src/control.rs:745-780 | refused exactly for two sections or two markers; otherwise the archive is unchanged, or begins with what it was and ends with the section behind an empty line, or has one section replaced and the text around it kept |
| `ArchiveKeeps.ProjectionKeeps` | engine/src/control.rs:745-780 | the preamble and the sections of every other task stay, in their order, but for blanks at the end; the task's own keeps its place or is the last |
| `ArchiveKeeps.WrittenHolds` | engine/src/control.rs:1489-1504 | the section read back holds its heading, the whole descriptor and the metrics |
| `ArchiveRuns.ArchiveSurvivesCrashes` | engine/src/control.rs:666-805 | the two archive operations succeed exactly when no indented status line shadows the status, and then repeating them from any crash point reaches the state of an uninterrupted run: no row, the descriptor done, a section that holds the task, and everything the archive held |
| `ArchiveRuns.CrashesCompose` | engine/src/control.rs:666-805 | crashing again during a retry leads to no new state |
| `ArchiveRuns.ProjectWhen` | engine/src/control.rs:727-805 | exactly when a projection succeeds |
| `ArchiveRuns.MarkKeeps` | engine/src/control.rs:666-722 | marking a task done touches no other row, no other field and no archive |
| `ArchiveRuns.IndentedStatusFails` | engine/src/control.rs:666-805 | a concrete descriptor with an indented status: marking it done removes its row and leaves it published, and the archive fails and is refused ever after |
| `ArchiveRuns.ArchiveFiles.MarkTaskDone` | engine/src/control.rs:666-722 | descriptor first, then queue, or nothing |
| `ArchiveRuns.ArchiveFiles.ProjectTask` | engine/src/control.rs:727-805 | at most one replacement of the archive, by which a section with descriptor and metrics lands and all else is kept, then its check |
| `ConfigFields.StripInlineComment` | engine/src/config.rs:717-748 | the quote-tracking loop finds where the comment starts |
| `ConfigFields.ActiveFields` | engine/src/config.rs:687-712 | the loop over lines collects the active fields, refusing a doubled key |
| `ConfigFields.FieldIs` | engine/src/config.rs:687-712 | which lines are active fields, and their values |
| `ConfigFields.CollectIs` | engine/src/config.rs:687-712 | the fields are the active lines by name, refused exactly if a name stands twice |
| `ConfigFields.CommentPlain` | engine/src/config.rs:717-748 | without quotes the comment starts at the first hash that is first or behind a blank |
| `ConfigFields.StrictAgrees` | engine/src/config.rs:752-774 | what the strict decoder takes the lenient scanner reads alike, without control characters |
| `ConfigDiscovery.PrintedDecodes` | engine/src/config.rs:752-774 | a printed command array decodes back to the commands |
| `ConfigDiscovery.PrintedSurvives` | engine/src/config.rs:717-748 | the printed array survives comment stripping whole, whatever its strings contain |
| `ConfigDiscovery.UpdatedPairs` | engine/src/config_discovery.rs:216-241 | the active fields of the rewritten file are the old ones and the accepted commands |
| `ConfigDiscovery.DiscoveryExtends` | engine/src/config_discovery.rs:160-249 | for every valid unconfigured text and every outcome the rewritten text is valid and means the old one plus the accepted commands |
| `ConfigDiscovery.NeverInvalidComposed` | engine/src/config_discovery.rs:238-241 | the composed text never fails its check |
| `ConfigDiscovery.AcceptedAreTyped` | engine/src/config_discovery.rs:251-323 | accepted commands are typed, of allow-listed tools, and none is accepted twice |
| `ConfigDiscovery.SiftDivides` | engine/src/config_discovery.rs:190-303 | accepted are exactly the sound candidates and skipped the others, each part in its order and each skipped one for the first reason that holds |
| `ConfigDiscovery.WitnessOf` | engine/src/config_discovery.rs:305-323 | a tool is known by its file name ahead of the first dot, in any directory and letter case, with its witness file |
| `ConfigDiscovery.DiscoveryIs` | engine/src/config_discovery.rs:160-249 | which configurations are refused, left alone and rewritten |
| `ConfigDiscovery.FreshNumbers` | engine/src/config_discovery.rs:376-390 | numbers of skipped candidates are new to the file and all different |
| `ConfigDiscovery.RediscoveryStops` | engine/src/config_discovery.rs:164-189 | after something was accepted, discovery never touches the file again |
| `ConfigDiscovery.ConfigFile.DiscoverAndWrite` | engine/src/config_discovery.rs:140-249 | the file is replaced at most once, with a valid text, whose commands are those of the sound candidates and whose other lines give a reason for each of the others |
| `Registry.NormalizeTwice` | engine/src/dependency_graph.rs:757-786 | a normalized product reads back as itself exactly when its name does not start with a colon |
| `Registry.NormalizeIs` | engine/src/dependency_graph.rs:757-786 | which products are accepted, and that they become the ecosystem in lower case and the trimmed name |
| `Registry.ColonNameAccepted` | engine/src/dependency_graph.rs:757-786 | a concrete product that is accepted and then refused |
| `Registry.ProductsTwice` | engine/src/dependency_graph.rs:709-721 | the same for whole product lists |
| `Registry.ProductsAre` | engine/src/dependency_graph.rs:709-735 | a product list is the set of its normalized products, in order |
| `Registry.EvidenceIs` | engine/src/dependency_graph.rs:737-755 | evidence is the set of its trimmed texts, in order |
| `Registry.DependenciesTwice` | engine/src/dependency_graph.rs:626-707 | the same for dependency lists, in order of upstream |
| `Registry.SortReads` | engine/src/dependency_graph.rs:579-601 | the order in which projects are stored does not matter to a reader |
| `Registry.ReadIs` | engine/src/dependency_graph.rs:414-523 | exactly which registries can be read, and as what |
| `Registry.AppliedIs` | engine/src/dependency_graph.rs:525-610 | what is written: one record advanced with the new lists, all else kept, in order of name and id |
| `Registry.AppliedReads` | engine/src/dependency_graph.rs:525-610 | an applied candidate reads back as the old registry with one slice replaced and its generation one higher, exactly when no product name starts with a colon |
| `RegistrySync.ChangeIsSwap` | engine/src/dependency_graph.rs:295-374 | a change happens only at the base generation, adds one to both generations and leaves every other project as it was |
| `RegistrySync.DecideIs` | engine/src/dependency_graph.rs:295-374 | exactly when a sync is refused, finds nothing to change, or writes |
| `RegistrySync.ChangeStores` | engine/src/dependency_graph.rs:525-610 | what it writes, as stored |
| `RegistrySync.NextKeeps` | engine/src/dependency_graph.rs:1008-1068 | under the lock the comparison still holds when the write happens |
| `RegistrySync.AtMostOnce` | engine/src/dependency_graph.rs:295-374 | over every run of syncs, failures and crashes a candidate's generation is applied at most once, and never after the project has moved on |
| `RegistrySync.GenerationCounts` | engine/src/dependency_graph.rs:603-608 | the registry's generation counts the replacements of a run |
| `RegistrySync.Host.Sync` | engine/src/dependency_graph.rs:295-374 | one sync: busy, failed with nothing changed, or done with the candidate removed; done exactly if the candidate is comparable, and changed exactly if it says something else |
| `Approval.IdIsInjective` | engine/src/approval.rs:642-691 | accepted requests share an id only if subject (a missing part being empty), reason, fingerprint and policy agree |
| `Approval.StepSettles` | engine/src/approval.rs:255-343 | a mutation changes nothing but an open decision and the notification marker |
| `Approval.MutationIs` | engine/src/approval.rs:255-343 | every field an accepted mutation sets and keeps, and the reason each refused one is refused for |
| `Approval.StatusIs` | engine/src/approval.rs:346-374 | exactly what each status is found for |
| `Approval.DecisionsStand` | engine/src/approval.rs:291-325 | over every run a decision once set never changes |
| `Approval.VerdictsStand` | engine/src/approval.rs:344-374 | approved stays approved and rejected stays rejected for the same fingerprint and policy |
| `Approval.TimeoutsStand` | engine/src/approval.rs:314-316 | with a clock that does not run backwards a timed-out record is never decided later |
| `Approval.ApprovedAsAsked` | engine/src/approval.rs:255-374 | an approval found was given to an open, in-time record that asks for exactly what the request asks for |
| `Approval.ApprovalStore.MakeRequest` | engine/src/approval.rs:255-289 | creates the open record with all that was asked and its deadline, or finds the one there is, or is refused for a stated reason |
| `Approval.ApprovalStore.MakeDecision` | engine/src/approval.rs:292-324 | decides an open record once, before its deadline, as said, by whom and when, or is refused for a stated reason |
| `Approval.ApprovalStore.ClearPending` | engine/src/approval.rs:329-342 | clears the notification marker and nothing else, or is refused for a stated reason |
| `ForgeCi.ClassifySelected` | engine/src/forge_ci.rs:474-512 | passing exactly when all selected checks are green, failing with the first that is not exactly when its state is one of the forge's words for red, pending exactly when that one is neither |
| `ForgeCi.LatestIsHighest` | engine/src/forge_ci.rs:341-349 | the selected check of a name has the highest id of that name, and is the last of these |
| `ForgeCi.GitLabPasses` | engine/src/forge_ci.rs:309-376 | exactly when GitLab passes |
| `ForgeCi.GitLabFails` | engine/src/forge_ci.rs:309-376 | exactly when GitLab fails and with which check |
| `ForgeCi.GiteaPasses` | engine/src/forge_ci.rs:394-466 | for every server and page cap, passing means page one was the whole list and every selected check is green, and conversely |
| `ForgeCi.GiteaFails` | engine/src/forge_ci.rs:394-466 | exactly when Gitea fails and with which check, and exactly when the second page is missed |
| `ForgeCi.NormalIgnores` | engine/src/forge_ci.rs:490-490 | blanks around a state and its letter case do not matter |
| `ForgeCi.ForeignWhen` | engine/src/forge_ci.rs:322-325 | a report is about the commit if it names none or the same, in any letter case |
| `ForgeCi.NoProofNoPass` | engine/src/forge_ci.rs:382-389 | without an answer to the second page there is no pass |
| `ForgeCi.WatchRequired` | engine/src/forge_ci.rs:521-556 | passed only on a passing poll, and the number of polls is bounded by the deadline over the backoff |
| `ForgeCi.WatchBestEffort` | engine/src/forge_ci.rs:560-600 | the same without the power to fail |
| `InboxLinks.AddLinks` | engine/src/inbox.rs:1280-1304 | a message is linked to a task exactly if it was, or a marker of it stands in a record of that task |
| `InboxLinks.ScopeIsNearest` | engine/src/inbox.rs:1286-1297 | a line belongs to the nearest header above it |
| `InboxLinks.BracketHeader` | engine/src/inbox.rs:1306-1340 | one to six hashes and a task id in brackets open the record of that task |
| `InboxLinks.OtherHeader` | engine/src/inbox.rs:1306-1323 | any other bracketed heading ends a record and opens none |
| `InboxLinks.MarkerIs` | engine/src/inbox.rs:1342-1346 | a marker line names its message exactly if that is a message id |
| `InboxLinks.Reconcile` | engine/src/inbox.rs:214-261 | the loop over messages writes the reconciled inbox and lists the updated ids |
| `InboxLinks.UpdateIsGentle` | engine/src/inbox.rs:226-257 | links only grow, terminal messages stay, read ones are queued and remarked when linked, and only changed ones get a new time |
| `InboxLinks.UpdatedIdsAre` | engine/src/inbox.rs:214-261 | the ids reported are those of the changed messages, in order |
| `InboxLinks.ReconcileIsIdempotent` | engine/src/inbox.rs:214-261 | running again writes nothing |
| `InboxLinks.CutThenRepeated` | engine/src/inbox.rs:214-261 | a cut run that is repeated leaves the links and statuses of one whole run |
| `Fingerprint.DigestLines` | engine/src/legacy_fingerprint.rs:326-373 | the loop over lines computes the projection: the sorted identities of the first event of each id |
| `Fingerprint.ProjectIs` | engine/src/legacy_fingerprint.rs:343-373 | the projection lists the identities of the first event of each id, sorted |
| `Fingerprint.DigestOfAnyCut` | engine/src/legacy_fingerprint.rs:326-342 | the digest does not depend on where the stream is cut at line ends |
| `Fingerprint.BomDoesNotMatter` | engine/src/legacy_fingerprint.rs:326-342 | a byte order mark at the start of the stream does not matter |
| `Fingerprint.ReplayChangesNothing` | engine/src/legacy_fingerprint.rs:343-351 | an event whose id is already in the stream changes nothing |
| `Fingerprint.RepeatedLine` | engine/src/legacy_fingerprint.rs:326-373 | the digest of a stream is the same with a line put in again behind an event of the same id, however both streams are cut |
| `Fingerprint.OrderDoesNotMatter` | engine/src/legacy_fingerprint.rs:371-372 | events with different ids may come in any order |
| `Fingerprint.MovedLines` | engine/src/legacy_fingerprint.rs:326-373 | the digest of a stream does not depend on the order of its lines when their ids are different |
| `Fingerprint.SpellingDoesNotMatter` | engine/src/legacy_fingerprint.rs:393-420 | slashes and backslashes spell the same path |
| `Fingerprint.RefusedPath` | engine/src/legacy_fingerprint.rs:393-420 | exactly which paths are refused |
| `Fingerprint.InventoryOrder` | engine/src/legacy_fingerprint.rs:112-127 | the tree digest does not depend on the order of the inventory |
| `Fingerprint.RefusedWhen` | engine/src/legacy_fingerprint.rs:112-127 | an inventory is refused exactly when a path is invalid or two entries are the same file |
| `Fingerprint.TreeOf` | engine/src/legacy_fingerprint.rs:112-127 | the loop over entries builds the tree or refuses it |
| `FileCache.LoadIsCurrent` | tui/src/cache.rs:30-76 | a sound cache answers with the content of some instant of the call |
| `FileCache.ReadOnce` | tui/src/cache.rs:30-76 | a file at rest over two calls is not read by the second |
| `FileCache.SoundAfterRead` | tui/src/cache.rs:55-75 | after a read the cache is sound exactly when the file did not come and go within the call, or parses like no file |
| `FileCache.SeriesIsCurrent` | tui/src/cache.rs:30-76 | over every series of calls with a running writer every answer is current, if no file comes and goes within one call |
| `FileCache.FlickerIsPinned` | tui/src/cache.rs:70-71 | a concrete file that is shown although it is not there |
| `FileCache.PlainFileCache.LoadWith` | tui/src/cache.rs:30-82 | the load as it updates key and value, invalidating on any failed step |
| `WatchLoop.WaitForWork` | engine/src/native_loop.rs:449-498 | the polls ahead of the last found nothing and the last one wakes as what it observed says; the k-th wait is the bounded doubling of the first and every queue read follows its own lease, stop and pause checks and one interval |
| `WatchLoop.RunUntilExhausted` | engine/src/native_loop.rs:300-370 | another cohort opens only behind one that completed with work left and was not stuck; a stuck one holds, an empty lane drains or escalates, a stop ends the wave as it is; all under consecutive ids |
| `WatchLoop.WaveEndsOnce` | engine/src/native_loop.rs:300-370 | the cohorts of a wave determine how many run and how it ends |
| `WatchLoop.RunWatching` | engine/src/native_loop.rs:398-437 | all cohorts of a run have different ids, no later wave opens but behind a drained lane and a clear poll that found work, no wait is shorter than the least interval, and the run ends as its last wave or wait says |
| `WatchLoop.BatchIdsAreDistinct` | engine/src/native_loop.rs:362-366 | the id of wave and cohort determines both |
| `WatchLoop.IntervalDoubles` | engine/src/native_loop.rs:496-496 | doubling and capping gives the closed form of the interval |

## Left out

- File system: confinement, symbolic links, byte-size ceilings of files and fsync are not modelled; reads, replacements, exclusive creation and removal are atomic.
- Locks: waiting and timeouts are not modelled; a lock is free or busy, a dead holder's lock is cleared by an operator step, and approvals are serialized (a stale approval lock broken under a live holder is not modelled).
- Hashes: message ids, approval ids and content digests are free constructors of what is hashed, so collisions and truncation are not modelled; project ids are not recomputed from roots.
- Indices count characters where the source counts UTF-8 bytes; no result depends on a byte position.
- JSON documents of messages, registry, candidates and approvals are records of their fields; unknown fields, key order and pretty printing are not modelled. `JsonTopLevel` keeps the text of a number, not its floating-point value, and depth is unbounded where the source has 32 bits.
- `InboxDelivery.ExactlyOnce`: reply ids are a multiset, so their sorted order in the file is not stated; messages arrive without a final marker, and inbox owners edit under the inbox lock without touching final markers, reply ids or delivery remarks.
- `InboxRetry.AnswerParses`: identifiers, the dedupe key, task lists and the internals of release metadata are taken to be valid, as the parser of the original message has already checked them.
- `Execution.DriveAccounts`: the reducer and the executor are arbitrary functions; operation timing, event projection and the content of session updates are not modelled, and a failing clock is an executor error.
- `ControlRuns.CutCaptureRepaired`: requires names that hide no counter, keyword or line break (`ControlRuns.OwnCounter` tells what happens otherwise); the queue row is read as `find_queue_block` reads it also where the source uses its snapshot parser, which takes the first of duplicate rows.
- `ControlRuns.CounterOverRuns`: tells that sparing steps keep the counter; a counter lost and later restored is not excluded.
- `ArchiveRuns.ArchiveSurvivesCrashes`: requires the descriptor to bring no archive header but its own and no metrics marker.
- `ArchiveText.HeaderTrimEnd`: letters beyond ASCII after a legacy id are approximated by a range of code points.
- `ConfigDiscovery.DiscoveryExtends`: what the configuration requires of keys outside verification is an arbitrary predicate; program lookup and witness files are answered by the environment.
- `RegistrySync.AtMostOnce`: project generations are unbounded where the source has 64 bits, and only syncs write the registry; cancellation is a failure at any point.
- `ForgeCi.WatchRequired`: requires the clock to advance by at least each sleep; reasons and signatures are not modelled.
- `ForgeCi.GiteaPasses`: the list of statuses does not change between the two page requests.
- `Fingerprint.DigestOfAnyCut`: decoding one line of JSON into an event is an arbitrary function; rotation during a projection is not modelled.
- `WatchLoop.RunWatching`: what a cohort does is answered by the environment, and wave and cohort numbers stay below 32 bits.
- Recovery replay of pending effects, the journal and status prose, telemetry, the queue and archive digests, manifests of approvals, `restore_queue_capture`, `return_task`, the older `archive_task` and GitHub's gate are not modelled: they would add members of the same or an easier kind.
- Child processes, model and forge clients, version control and the terminal interface are foreign calls.
