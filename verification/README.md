# Keiro tooling: verified models

Keiro's repository carries tooling that decides things: whether a release is backed by evidence, whether
two replay reports are compatible, what a plan's provenance records, how much load a measurement offers.
This project models that tooling in Dafny and proves what each tool is relied on for. It says nothing about
Keiro's Haskell runtime.

## The parts

**Recording provenance in a plan** (`LineScans`, `LineText`, `PlanFrontmatter`, `EntryReadback`,
`RecordingLaws`, `RecordingTheorems`, `RecordingHistories`, `RecordingFrame`, `RecordingPlans`, `PlanEditor`,
`ScriptPatterns`, `StoredScalars`, `RecordingMeaning`).
A script finds a block and a list in a plan's frontmatter by indentation, splices an entry in, and reads
entries back to skip duplicates. The model works on the characters of the file. `PlanFrontmatter.RecordIn` says
what one run does to the text; `PlanEditor.Editor` is the script's own form, an object whose line list is
pushed, popped and spliced, proved to do just that. The main results:

- What a list reads as after a run is known for every request (`RecordedKind`, `OneRun`); it is the old entries
  and the new one exactly when model, harness and note keep to one line.
- The other list keeps its lines exactly when it is not entangled with this one; if it is, the theorem says
  which lines it gains and what it reads as then (`OtherKind`).
- Two lists are *apart* when they do not overlap and a list that is missing would not come to lie in the other.
  Being apart is just what it takes for no request to change the other list (`ApartIffOthersStay`), and it
  lasts. Any sequence of runs over lists that are apart is two logs (`HistoryIsTwoLogs`); runs of one kind are one
  log on any plan (`HistoryOfOneKind`).
- After a run, the next one of its kind is skipped exactly when it repeats what the first reads back as
  (`RunAfterRun`).
- The output is the input with one contiguous run of lines put in at a given place, but for an empty `[]` behind
  the list's key and blank lines at the end of a frontmatter without a block (`FileFrame`).
- What the patterns match and what the words in the file are is said a second time and independently
  (`ScriptPatterns`, `StoredScalars`, `RecordingMeaning`), and both are proved to agree.

Three things the proofs brought out:

- `JSON.stringify` leaves the line separators U+2028 and U+2029 as they are, and `.` does not match them. A value
  with one of them cannot be read back; if it is the model, the other fields are written over the entry before
  (`ReadbackExact`, `ParseEntryLines`, `OlderEntriesStay`).
- Lists can be entangled. A deeper comment at the head of the block is enough for a new list to be put under the
  other one, where its entry is read (`ReadUnderTheOther`, `RevisionReadAsReview`). In a list nested in the
  other, a new entry is written over the newest entry of the outer one (`NestedIsOverwritten`,
  `RevisionWrittenOverReview`).
- List items that are no deeper than their key, which YAML allows, lie outside the list as the script sees it:
  they are not read, and a new entry is put before them (`InListExact`, `ShallowItemsAreMissed`,
  `NewReviewBeforeOldOne`).

**The release gate** (`ReleaseMachine`, `ReleaseInvariant`, `ReleaseTheorems`, `ReleaseFiles`, `ReleaseGate`,
`ReleaseExample`, `ReleaseMeaning`). Seven stages run one after another; a receipt is written before each command and closed after it; passes are
reused; a manifest is judged later. `ReleaseMachine` is a step system with a ledger of what really ran, beside
the receipts, logs and manifests that claim it; between the gate's steps time passes, sources are edited, logs
are tampered with, runs are interrupted. `ReleaseGate` has the script's own classes, and each of their methods
is proved to be a run of the step system. The main results: whatever happened before, an accepted manifest
rests on a real, complete, successful, fresh run of each stage with nothing later failed; a manifest that was
just accepted is accepted by the later check exactly when its logs are fresh and untouched and every receipt
can be read, also at the end of a whole gate (`Gate.Execute`); acceptance is within reach
(`SomethingIsAccepted`); a stage is reused exactly when its newest attempt ran well, and is run exactly when it
is not reused. `ReleaseMeaning` has commands and file names by their words.

**The dependency closure of a release** (`PlanClosure`). The worklist over Cabal's plan returns exactly the
external units reachable from the release's roots, and fails exactly when one of them is no Hackage release, a
reachable unit is missing from the plan, or there is no root. The order of the worklist does not matter. The
result is stated a second time over the plan as Cabal lists it (`Published`).

**The replay checker** (`Json`, `JsonDifference`, `ReplaySpec`, `ReplayChecker`, `ReplayLaws`,
`ReplayExample`, `ReplayMeaning`). The first difference of two JSON values, and three validators that collect errors. `ReplayChecker.Checker` has the
script's shape; it accepts exactly what `ReplaySpec.Compatible` describes without loops or order, which is
exactly what `ReplayMeaning.Fits` says field by field. The verdict
does not depend on the order of any list. Demanding every case is *not* stronger than not demanding it:
`RelaxedExact` says exactly what the relaxed mode asks on top, and `StrictIsNotRelaxed` turns any accepted
input into one that only the strict mode accepts.

**The polling client** (`PollingSchedule`, `PollingProtocol`, `PollingInvariant`, `PollingTheorems`,
`PollingRecord`, `PollingProgress`, `ExpectedPolls`). Who polls which view when, in exact arithmetic, and the threads with their
barrier and signals as a state machine over all interleavings. The load is exact; nothing is requested before
all workers are warm and the parent said go; the printed counts are the answers of the run, and add up to the full load exactly
when no worker died; every run is bounded; and the client can come to its end exactly when no thread was lost before the
barrier. That last condition is real: an interrupt of the main thread while it waits at the barrier leaves the
client hanging (`InterruptAtBarrierHangs`), because the workers wait at a barrier that the main thread has left.

**Export lists** (`ExportList`, `ExportRoundTrip`, `ExportMeaning`). The splitter cuts at top-level commas. Its segments are the
only way to cut the text into whole items, and joining and splitting is the identity exactly on the items that
it can return.

**Session files** (`TurnModel`, `TurnMeaning`). Which model wrote the current turn, with an if-and-only-if for
each loop, over the records and over their JSON.

**Matched evidence** (`RateQualification`, `EvidenceLegs`). The rate that the baseline can carry, and the plan
of legs: every trial has what it needs, no two legs share a directory, every file the comparison reads was
written by just one leg. `ExpectedPolls` ties the comparison's table of expected requests to the schedule of
the polling client.

`Options` has the datatype of optional values that the other modules share.

## What the model takes for granted

- SHA-256 over canonical JSON is an injective constructor.
- Run identifiers of gates are unique, the workspace lock admits one gate at a time, and the clock has advanced
  when a gate opens a receipt. `TieHidesFailure` shows why the last one matters.
- Receipts and manifests are not edited by hand; logs may be. Files that are no receipts may lie in the evidence
  directory.
- The end of a stage (footer, digest, receipt) is one step; an interrupt falls before or after it.
- Numbers in JSON are mathematical; there is no NaN and no negative zero.
- Due times and rates are exact rationals.

## Model

| member | source | states |
|---|---|---|
| `LineText.SplitOfJoin` | agents/skills/exec-plan/record-provenance.ts:148-149 | lines joined by line feeds are split into the same lines again |
| `LineText.UnquoteOfQuote` | agents/skills/exec-plan/record-provenance.ts:128-142 | a quoted value is read back as it was, whatever it holds |
| `LineText.QuoteBreaks` | agents/skills/exec-plan/record-provenance.ts:128-130 | a quoted value is one line for the script's patterns exactly when it has no U+2028 or U+2029 |
| `LineText.SpacesAre` | agents/skills/exec-plan/record-provenance.ts:134-145 | the white space of the script's patterns and of `trim`, and the characters `.` leaves out, by code point |
| `LineText.TrimExact` | agents/skills/exec-plan/record-provenance.ts:134-135 | trimming gives the text between its first and its last ink, and nothing where there is no ink |
| `StoredScalars.QuoteMeans` | agents/skills/exec-plan/record-provenance.ts:128-130 | a value is quoted character by character: the short escapes, two digits for other control characters, everything else as it is |
| `StoredScalars.UnescapeMeans` | agents/skills/exec-plan/record-provenance.ts:136-138 | a literal is read as a value exactly when it can be cut into pieces that stand for its characters, up to one closing quote at the end |
| `StoredScalars.UnquoteMeans` | agents/skills/exec-plan/record-provenance.ts:132-142 | a stored value reads as what its literal says, and as its own trimmed text if it is none |
| `ScriptPatterns.DelimiterMeans` | agents/skills/exec-plan/record-provenance.ts:155-160 | the pattern of a delimiter matches three dashes followed by white space only |
| `ScriptPatterns.ProvenanceMeans` | agents/skills/exec-plan/record-provenance.ts:221-230 | the pattern of the block's first line, and that ink other than a comment behind it is refused |
| `ScriptPatterns.KeyMeans` | agents/skills/exec-plan/record-provenance.ts:249 | the pattern of a list's key line matches some indentation, the key with its colon, and a rest on the same line |
| `ScriptPatterns.KeyValueMeans` | agents/skills/exec-plan/record-provenance.ts:251-260 | behind a list's key `[]` is taken away, and any other ink that is no comment is refused |
| `ScriptPatterns.DashMeans` | agents/skills/exec-plan/record-provenance.ts:292-296 | the pattern of an item's first line and the indentation it yields |
| `ScriptPatterns.DedentsMeans` | agents/skills/exec-plan/record-provenance.ts:279-286 | a list ends at ink that is no deeper than its key |
| `ScriptPatterns.ItemMeans` | agents/skills/exec-plan/record-provenance.ts:186-187 | both patterns of the parser of entries match exactly the lines put together that way, with these groups |
| `ScriptPatterns.AbsorbMeans` | agents/skills/exec-plan/record-provenance.ts:188-196 | a line opens an entry, sets a field of the newest one, or does nothing |
| `RecordingMeaning.ValidMeans` | agents/skills/exec-plan/record-provenance.ts:97-124 | what a request has passed: a model, one of the three verdicts or four modes, and a stamp of numerals around fixed marks |
| `RecordingMeaning.EntryLinesMean` | agents/skills/exec-plan/record-provenance.ts:173-182 | the lines of an entry with their keys as they stand in the file |
| `RecordingMeaning.SkippedMeans` | agents/skills/exec-plan/record-provenance.ts:200-217 | on any plan a run is skipped exactly when the newest entry has the same model, note, verdict or mode, and the same first ten characters of its time |
| `EntryReadback.ParseEntryLines` | agents/skills/exec-plan/record-provenance.ts:173-198 | an entry's lines are parsed as one new entry if the model keeps to one line; if not, the fields after it that do are written over the newest entry |
| `EntryReadback.ReadbackExact` | agents/skills/exec-plan/record-provenance.ts:173-198 | parsing after the lines of an entry gives the entries so far and that entry exactly when all its values keep to one line |
| `PlanEditor.BuildEntryLines` | agents/skills/exec-plan/record-provenance.ts:173-182 | pushes the lines of an entry in order, leaving out what is absent |
| `PlanEditor.Editor.Open` | agents/skills/exec-plan/record-provenance.ts:151-171 | splits off the frontmatter, and fails exactly when it is opened and never closed |
| `PlanEditor.Editor.FindProvenance` | agents/skills/exec-plan/record-provenance.ts:219-233 | finds the first top-level provenance line |
| `PlanEditor.Editor.FindBlockEnd` | agents/skills/exec-plan/record-provenance.ts:241-244 | finds where the indented block ends, without trailing blank lines |
| `PlanEditor.Editor.FindHeader` | agents/skills/exec-plan/record-provenance.ts:246-263 | finds the first line in the block with the list's key |
| `PlanEditor.Editor.FindChildIndent` | agents/skills/exec-plan/record-provenance.ts:266-274 | takes the indentation of the block's first line with ink, two spaces if there is none |
| `PlanEditor.Editor.FindListEnd` | agents/skills/exec-plan/record-provenance.ts:277-288 | finds where lines deeper than the key end, without trailing blank lines |
| `PlanEditor.Editor.FindItemIndent` | agents/skills/exec-plan/record-provenance.ts:290-297 | takes the indentation of the first item, two more than the key's if there is none |
| `PlanEditor.Editor.Parse` | agents/skills/exec-plan/record-provenance.ts:184-198 | reads the entries of a range of lines |
| `PlanEditor.Editor.PushBlock` | agents/skills/exec-plan/record-provenance.ts:235-239 | without a block, drops trailing blank lines and appends a block with the entry |
| `PlanEditor.Editor.SpliceList` | agents/skills/exec-plan/record-provenance.ts:265-275 | without the list, splices it with the entry at the end of the block |
| `PlanEditor.Editor.SpliceEntry` | agents/skills/exec-plan/record-provenance.ts:276-303 | with the list, skips a duplicate unless told otherwise, and else splices the entry at the list's end |
| `PlanEditor.Editor.Record` | agents/skills/exec-plan/record-provenance.ts:148-310 | one run over the text of a plan: refused, skipped, or written just as `RecordIn` says |
| `RecordingTheorems.Readback` | agents/skills/exec-plan/record-provenance.ts:235-304 | in all three cases of insertion, the list afterwards reads as the old entries followed by the new lines |
| `RecordingTheorems.RecordedKind` | agents/skills/exec-plan/record-provenance.ts:184-304 | after recording, the list reads as the old entries and the new one exactly when all values keep to one line |
| `RecordingTheorems.OtherKind` | agents/skills/exec-plan/record-provenance.ts:235-304 | recording leaves the lines of the other list alone exactly when it is not entangled with it; if it is, that list gains the new lines at their place and reads as all its lines do |
| `RecordingHistories.ApartExact` | agents/skills/exec-plan/record-provenance.ts:241-288 | neither list is entangled with the other exactly when the two do not overlap and a missing list's key line would not go under the other |
| `RecordingHistories.ApartIffOthersStay` | agents/skills/exec-plan/record-provenance.ts:235-304 | the lists are apart exactly when no valid request of either kind changes the lines of the other list |
| `RecordingHistories.StaysApart` | agents/skills/exec-plan/record-provenance.ts:235-304 | lists that are apart stay apart |
| `RecordingHistories.OpenOfRender` | agents/skills/exec-plan/record-provenance.ts:148-171 | what a run writes is opened as the frontmatter and body that were written |
| `RecordingHistories.WrittenPlan` | agents/skills/exec-plan/record-provenance.ts:235-310 | the written text opens as the recorded frontmatter and the old body, after a blank line if there was no frontmatter |
| `RecordingHistories.OneRun` | agents/skills/exec-plan/record-provenance.ts:184-310 | on any plan, a run that writes makes its own list read on with the request, keeps the other list exactly when they are not entangled, keeps the body, and leaves a plan that is accepted as before |
| `RecordingHistories.HistoryIsTwoLogs` | agents/skills/exec-plan/record-provenance.ts:148-310 | any valid runs, each allowing duplicates or not, over a plan with lists apart: no run dies, both lists read back as two logs replayed on their own, and the body stays |
| `RecordingHistories.HistoryOfOneKind` | agents/skills/exec-plan/record-provenance.ts:148-310 | any valid runs of one kind over any plan that accepts it make one log, also when the lists are entangled |
| `RecordingHistories.AllowedRunsAppend` | agents/skills/exec-plan/record-provenance.ts:276-303 | with duplicates allowed and values on one line, a log is its old entries followed by the recorded ones in order |
| `RecordingHistories.OlderEntriesStay` | agents/skills/exec-plan/record-provenance.ts:184-303 | whatever is recorded, no entry is lost and none but the newest changes |
| `RecordingHistories.RepeatIsSkipped` | agents/skills/exec-plan/record-provenance.ts:200-217 | recording the same again on the same day, by the ten characters of the date, is skipped exactly when model and note keep to one line, or the model does not and the entry before has it with an agreeing note |
| `RecordingHistories.RunAfterRun` | agents/skills/exec-plan/record-provenance.ts:200-217 | after any run, another of its kind is skipped exactly when model, verdict or mode, note, and each of the first ten characters of the time are what the newest entry reads back as; hours do not matter |
| `RecordingFrame.KeptLines` | agents/skills/exec-plan/record-provenance.ts:238-253 | before insertion nothing changes but blank lines at the end, if there was no block, and an empty `[]` behind the key |
| `RecordingFrame.OnlyOneRunIsPutIn` | agents/skills/exec-plan/record-provenance.ts:235-303 | the new frontmatter is the kept lines with one run put in, and in each of the three cases where it is put and which lines it has |
| `RecordingFrame.FileFrame` | agents/skills/exec-plan/record-provenance.ts:148-310 | the lines of the written file are those of the old one, trimmed as above, with one run put in; a file without frontmatter follows unchanged behind a new one |
| `RecordingPlans.InListExact` | agents/skills/exec-plan/record-provenance.ts:277-288 | a line behind the key belongs to the list exactly when it or a later one has ink and none with ink up to there is as shallow as the key |
| `RecordingPlans.ShallowItemsAreMissed` | agents/skills/exec-plan/record-provenance.ts:277-304 | under a key whose next line is no deeper nothing is read, and a new entry is put right behind the key |
| `RecordingPlans.NewReviewBeforeOldOne` | agents/skills/exec-plan/record-provenance.ts:276-304 | a plan whose review is no deeper than its key: it is not read, and its line ends up behind the new review |
| `RecordingPlans.ParseDeeper` | agents/skills/exec-plan/record-provenance.ts:184-198 | lines of an entry that are deeper than a list's items open no entry there; all but the first are written over the newest one |
| `RecordingPlans.ReadUnderTheOther` | agents/skills/exec-plan/record-provenance.ts:265-275 | a new list that is put under the other one, which has no lines, has its entry read in that one |
| `RecordingPlans.RevisionReadAsReview` | agents/skills/exec-plan/record-provenance.ts:265-275 | a plan without any list of revisions where a recorded revision is read back as a review |
| `RecordingPlans.NestedIsOverwritten` | agents/skills/exec-plan/record-provenance.ts:276-304 | an entry recorded at the common end of an inner and an outer list, deeper than the outer items, is written over the newest outer entry |
| `RecordingPlans.RevisionWrittenOverReview` | agents/skills/exec-plan/record-provenance.ts:276-304 | a plan with revisions nested in a review, where recording a revision changes that review |
| `ReleaseInvariant.StepKeeps` | scripts/release_workflow.py:302-383 | every step of gate and environment keeps receipts, manifests and verdicts true to what really ran |
| `ReleaseInvariant.RunKeeps` | scripts/release_workflow.py:302-383 | so does every run |
| `ReleaseTheorems.ReusableExact` | scripts/release_workflow.py:291-299 | a receipt is reusable exactly when its run really was of these inputs and this command, complete, successful, fresh, with its log untouched |
| `ReleaseTheorems.NothingLaterExact` | scripts/release_workflow.py:435-440 | the check for later attempts passes exactly when every later run of the same identity ran well |
| `ReleaseTheorems.StageExact` | scripts/release_workflow.py:424-440 | a stage of a manifest passes exactly when its evidence holds |
| `ReleaseTheorems.AcceptsExact` | scripts/release_workflow.py:417-441 | the check accepts a manifest exactly when it is authorized by what really ran |
| `ReleaseTheorems.AcceptedRestsOnRuns` | scripts/release_workflow.py:302-441 | in every history, an accepted manifest has for each of the seven stages a real, complete, successful, fresh run under these inputs with an untouched log and nothing later failed |
| `ReleaseMeaning.AcceptedRanEverything` | scripts/release_workflow.py:302-441 | in every history, an accepted manifest rests on a good run of `just _verify` and on one of `scripts/bench-regression.sh` with each of the six guards by name, within a day, and none later that is not good |
| `ReleaseMeaning.IdentityIsOfOneStage` | scripts/release_workflow.py:314-314 | two stages have one identity only if they are the same stage on the same inputs |
| `ReleaseMeaning.AcceptsMeans` | scripts/release_workflow.py:417-441 | in any workspace the check accepts exactly a manifest of schema 1 for these inputs whose seven stages refer to unchanged receipts of passes, with nothing later of the same command that is none |
| `ReleaseTheorems.FinishedIsAccepted` | scripts/release_workflow.py:370-441 | the manifest of a gate that just finished accepted is accepted by the check exactly when all files can be read and every log is fresh and untouched |
| `ReleaseTheorems.LatestExact` | scripts/release_workflow.py:314-324 | the receipt with the latest start is the newest real run of the stage's identity |
| `ReleaseTheorems.ReuseExact` | scripts/release_workflow.py:323-328 | a stage can be reused exactly when the gate is not fresh and the newest real run ran well |
| `ReleaseTheorems.BeginExact` | scripts/release_workflow.py:323-334 | a stage can be run exactly when the gate is fresh or no newest real run ran well, and the clock has advanced |
| `ReleaseTheorems.DecisionIsForced` | scripts/release_workflow.py:323-334 | a stage is run exactly when it cannot be reused |
| `ReleaseTheorems.TieHidesFailure` | scripts/release_workflow.py:324-440 | with equal start times a failed attempt may be hidden: the pass beside it is a latest receipt too, and no check refuses it |
| `ReleaseFiles.SelectsExact` | scripts/release_workflow.py:316-329 | the file pattern of a stage selects exactly the receipts of that stage |
| `ReleaseFiles.ManifestsAreNotSelected` | scripts/release_workflow.py:310-316 | no stage's file pattern selects a manifest |
| `ReleaseMeaning.SelectsMeans` | scripts/release_workflow.py:316-316 | the pattern of a stage takes exactly the names that end in a dash, the stage as it is spelled, and `.json` |
| `ReleaseMeaning.FilesAre` | scripts/release_workflow.py:310-329 | the names of receipts and manifests |
| `ReleaseMeaning.OrderIs` | scripts/release_workflow.py:370-374 | the order of the seven stages |
| `ReleaseMeaning.BeginWrites` | scripts/release_workflow.py:329-338 | receipt and log before the command runs, with the command by its words |
| `ReleaseMeaning.EndWrites` | scripts/release_workflow.py:344-364 | log and receipt after it: all output, the mark of a changed source, and the exit status, 1 if the source changed |
| `ReleaseGate.Workspace.CheckManifest` | scripts/release_workflow.py:417-441 | the loop over the manifest's stages accepts exactly when the check does |
| `ReleaseGate.Workspace.CheckStage` | scripts/release_workflow.py:424-440 | one stage: reference, receipt checksum, reuse, and the loop over later receipts |
| `ReleaseGate.Gate.constructor` | scripts/release_workflow.py:303-311 | writes the first manifest and nothing else |
| `ReleaseGate.Gate.NewestAttempt` | scripts/release_workflow.py:315-324 | the loop finds the readable attempt of this identity with the latest start, or none exactly when there is none |
| `ReleaseGate.Gate.WriteOpenReceipt` | scripts/release_workflow.py:329-338 | opens receipt and log of an attempt before the command runs |
| `ReleaseGate.Gate.CloseReceipt` | scripts/release_workflow.py:356-361 | closes the receipt with the exit status, one if the source has changed, and the digest of the log |
| `ReleaseGate.Gate.RecordStage` | scripts/release_workflow.py:365-368 | writes the stage's reference into the manifest |
| `ReleaseGate.Gate.ReuseStage` | scripts/release_workflow.py:325-328 | records an earlier pass |
| `ReleaseGate.Gate.CloseStage` | scripts/release_workflow.py:341-363 | ends a command that ran: closed and recorded, or interrupted |
| `ReleaseGate.Gate.RunStage` | scripts/release_workflow.py:329-363 | runs a stage: receipt, command with whatever happens meanwhile, receipt, record |
| `ReleaseGate.Gate.Stage` | scripts/release_workflow.py:313-363 | one stage: reuses the newest attempt if it may and runs the command if not |
| `ReleaseGate.Gate.FinishRun` | scripts/release_workflow.py:380-382 | writes the verdict into the manifest |
| `ReleaseGate.Gate.Execute` | scripts/release_workflow.py:370-382 | the whole gate is a run of the step system through correctness and, if that passed, the six guards, then one more look at the source and the verdict; success means an accepting verdict, and then the check accepts exactly when all files can be read and every stage's log is fresh and untouched; it ends without verdict only when a command is interrupted or logs are meddled with |
| `ReleaseExample.SomethingIsAccepted` | scripts/release_workflow.py:302-441 | from an empty workspace there is a history of a whole gate after which the check accepts its manifest |
| `PlanClosure.BuildTable` | scripts/release_workflow.py:215 | the table of units, later ones replacing earlier ones of the same id |
| `PlanClosure.Roots` | scripts/release_workflow.py:216-217 | the roots are the libraries and executables of the release's packages |
| `PlanClosure.PublishedDependencies` | scripts/release_workflow.py:213-235 | returns exactly names and versions of the external units reachable from the roots, and fails exactly when one of them is no Hackage release, one is missing from the plan, or there is no root; in terms of the table and of the list of units |
| `PlanClosure.PublishedExact` | scripts/release_workflow.py:213-235 | a result is right for the table exactly when it is right for the units as listed: chains through `depends` and `exe-depends` from libraries and executables of the eight packages, archives from the two addresses of Hackage |
| `PlanClosure.ClosedHoldsReachable` | scripts/release_workflow.py:219-225 | what holds the roots and is closed under both kinds of dependencies holds everything reachable |
| `PlanClosure.OrderDoesNotMatter` | scripts/release_workflow.py:218-235 | any two correct results agree, whichever way the worklist went |
| `JsonDifference.NoneIffEqual` | scripts/check-replay-compatibility.py:60-83 | there is no first difference exactly when the values are equal in shape, type and content |
| `JsonDifference.FoundIsFirst` | scripts/check-replay-compatibility.py:60-83 | a difference that is found is one, and everything before it in the order of traversal agrees |
| `JsonDifference.FirstIsUnique` | scripts/check-replay-compatibility.py:60-83 | there is at most one first difference |
| `JsonDifference.ExactAndFirst` | scripts/check-replay-compatibility.py:60-83 | the function finds exactly the first difference |
| `JsonDifference.TypesExact` | scripts/check-replay-compatibility.py:61-61 | two values have the same type exactly when the names of their types are equal |
| `Json.BelowExact` | scripts/check-replay-compatibility.py:64-68 | keys are sorted by the first code point in which they differ, a prefix first |
| `Json.SameExact` | scripts/check-replay-compatibility.py:173-220 | two values are equal exactly when they are identical once numbers and booleans are replaced by their numbers |
| `Json.SameIsEqual` | scripts/check-replay-compatibility.py:173-220 | without numbers and booleans, equal is identical |
| `ReplayChecker.Checker.Indexed` | scripts/check-replay-compatibility.py:86-105 | adds no error exactly when the value is a list of items with distinct keys; the table holds the first item of each key |
| `ReplayChecker.Checker.CheckContribution` | scripts/check-replay-compatibility.py:129-145 | adds no error exactly when the contribution has a list of cases and its applicability fits it |
| `ReplayChecker.Checker.EnterCases` | scripts/check-replay-compatibility.py:146-155 | adds no error exactly when all cases are well formed and none conflicts with one before |
| `ReplayChecker.Checker.EnterContributions` | scripts/check-replay-compatibility.py:127-155 | adds no error exactly when all contributions are in order and their cases do not conflict |
| `ReplayChecker.Checker.ValidateInventory` | scripts/check-replay-compatibility.py:117-158 | adds no error exactly when the inventory is in order, and returns the required cases |
| `ReplayChecker.Checker.CheckResult` | scripts/check-replay-compatibility.py:187-202 | adds no error exactly when the result covers the required case |
| `ReplayChecker.Checker.ValidateHead` | scripts/check-replay-compatibility.py:169-176 | adds no error exactly when version, role, build pair and inventory are as demanded |
| `ReplayChecker.Checker.ValidateLists` | scripts/check-replay-compatibility.py:178-182 | adds no error exactly when marks and results are keyed lists and there is a mark |
| `ReplayChecker.Checker.CheckCases` | scripts/check-replay-compatibility.py:184-202 | adds no error exactly when every case held to is covered by its result |
| `ReplayChecker.Checker.ValidateReport` | scripts/check-replay-compatibility.py:161-203 | adds no error exactly when the report is in order and covers what it is held to, and returns its results |
| `ReplayChecker.Checker.MarkMap` | scripts/check-replay-compatibility.py:223-224 | adds no error exactly when the map from streams to revisions can be made; the later of two marks of a stream counts |
| `ReplayChecker.MappableMeans` | scripts/check-replay-compatibility.py:223-224 | the map can be made unless the marks cannot be gone through or one has a list or dictionary for its stream |
| `ReplayChecker.StreamMapMeans` | scripts/check-replay-compatibility.py:223-224 | the map holds for a stream the revision of its last mark |
| `ReplayChecker.StreamKeyMeans` | scripts/check-replay-compatibility.py:223-224 | two streams are one key of the map exactly when they are equal |
| `ReplayChecker.Checker.CompareHeads` | scripts/check-replay-compatibility.py:215-226 | on all reports, adds no error exactly when corpus, contract, determinism inputs and maps of marks are the same |
| `ReplayChecker.Checker.CompareObservations` | scripts/check-replay-compatibility.py:231-241 | adds no error exactly when the observations compared are equal |
| `ReplayChecker.Checker.CompareReports` | scripts/check-replay-compatibility.py:206-241 | on all reports, adds no error exactly when heads agree, something is compared, and what is compared is equal |
| `ReplayChecker.Checker.Check` | scripts/check-replay-compatibility.py:244-260 | accepts exactly when inventory and reports are compatible |
| `ReplayMeaning.CompatibleMeans` | scripts/check-replay-compatibility.py:108-260 | compatible means, field by field: versions, roles, the seven sources, cases and results by their names, passed and observed on selected surfaces, equal hashes and marks, identical observations |
| `ReplayMeaning.AcceptedAgree` | scripts/check-replay-compatibility.py:175-220 | what is accepted has one corpus hash, one observation contract and one inventory id where these are texts |
| `ReplayMeaning.AcceptedKeepCases` | scripts/check-replay-compatibility.py:191-192 | in what is accepted a required case without numbers and booleans stands unchanged in its results |
| `ReplayLaws.KeyedShuffled` | scripts/check-replay-compatibility.py:86-105 | whether a list is keyed, and its table if it is, do not depend on the order |
| `ReplayLaws.ReportOrderDoesNotMatter` | scripts/check-replay-compatibility.py:161-260 | permuting marks, results and selected surfaces of either report changes no verdict |
| `ReplayLaws.ContributionOrderDoesNotMatter` | scripts/check-replay-compatibility.py:117-260 | permuting the contributions of the inventory changes no verdict |
| `ReplayLaws.CaseOrderDoesNotMatter` | scripts/check-replay-compatibility.py:117-260 | permuting the cases within contributions changes no verdict |
| `ReplayLaws.RelaxedExact` | scripts/check-replay-compatibility.py:184-241 | what passes when every case is demanded passes otherwise exactly when the cases outside the inventory agree too |
| `ReplayLaws.StrictIsNotRelaxed` | scripts/check-replay-compatibility.py:228-241 | whatever passes when every case is demanded extends to something that passes then and fails otherwise |
| `ReplayExample.SomethingIsCompatible` | scripts/check-replay-compatibility.py:244-260 | the strict mode can be met: two reports and an inventory that are accepted |
| `PollingSchedule.StrideIs` | scripts/inspection-http-poll-client.py:42 | a stride visits the numbers of its residue class below the bound, in order, and all of them |
| `PollingSchedule.FirstSlot` | scripts/inspection-http-poll-client.py:42-69 | views of a worker times its index stay below the slots of a second |
| `PollingSchedule.DueInTime` | scripts/inspection-http-poll-client.py:67-71 | the requests due in time are exactly the first so many: views of the worker times seconds, whatever its offset |
| `PollingSchedule.OneRound` | scripts/inspection-http-poll-client.py:69-74 | each view of a worker is due again after exactly a second |
| `PollingSchedule.DueIsSpread` | scripts/inspection-http-poll-client.py:69-69 | workers begin one slot after the other, and each goes on in equal steps, as many to the second as it has views |
| `PollingSchedule.Poll` | scripts/inspection-http-poll-client.py:67-77 | the loop asks for the scheduled views in order up to where it is stopped, for all of them if it is not, and counts every answer once |
| `PollingSchedule.ExactLoad` | scripts/inspection-http-poll-client.py:42-77 | all workers together offer the larger of workers and views for every second |
| `PollingSchedule.StrideHolds` | scripts/inspection-http-poll-client.py:42 | every view is in the stride of one worker, once, and in no other |
| `PollingSchedule.EachViewPolled` | scripts/inspection-http-poll-client.py:42-77 | with no more workers than views every view is asked for once per second; with more, once per second by each worker that shares it |
| `PollingInvariant.StepKeeps` | scripts/inspection-http-poll-client.py:32-104 | every step of every thread keeps the invariant of the protocol |
| `PollingInvariant.RunKeeps` | scripts/inspection-http-poll-client.py:32-104 | so does every interleaving, with crashes and interrupts |
| `PollingTheorems.NothingTooSoon` | scripts/inspection-http-poll-client.py:56-93 | under control no request is made or counted unless all workers are warm, no warm-up request failed, and the parent said go |
| `PollingTheorems.LoadIsDelivered` | scripts/inspection-http-poll-client.py:67-104 | printed counts never exceed the full load, and add up to it exactly when no worker died |
| `PollingRecord.PrintedIsCounted` | scripts/inspection-http-poll-client.py:67-104 | the printed counts are the requests of the run that were answered well and those that were not; each worker made its share of them exactly when it did not die |
| `PollingRecord.EveryViewIsWarmed` | scripts/inspection-http-poll-client.py:56-66 | nothing is measured before every worker has asked once for each of its views and got all of them |
| `PollingRecord.StopIsHeeded` | scripts/inspection-http-poll-client.py:72-77 | once everyone is told to stop, no worker starts another request |
| `PollingRecord.StartIsMeasured` | scripts/inspection-http-poll-client.py:69-92 | due times count from the moment taken after the parent said go |
| `PollingProgress.RunsAreBounded` | scripts/inspection-http-poll-client.py:40-104 | every run, with whatever goes wrong, has a bounded number of steps |
| `PollingProgress.NobodyIsStuck` | scripts/inspection-http-poll-client.py:56-104 | unless the barrier is lost or the client has ended, some thread can go on |
| `PollingProgress.BlockedStays` | scripts/inspection-http-poll-client.py:63-104 | ordinary steps neither lose the barrier nor make up for it |
| `PollingProgress.EndsExact` | scripts/inspection-http-poll-client.py:56-104 | from any state the client can come to its end exactly when the barrier is not lost |
| `PollingProgress.FaultlessEnd` | scripts/inspection-http-poll-client.py:56-104 | when nothing goes wrong the client ends with the full load printed, or fails with nothing counted |
| `PollingProgress.InterruptAtBarrierHangs` | scripts/inspection-http-poll-client.py:84-103 | an interrupt of the main thread at the barrier leaves the client waiting for ever |
| `ExpectedPolls.ExpectedIsOffered` | scripts/inspection-matched-http-evidence.py:167 | the table of expected requests is what the schedule offers in each mode |
| `ExpectedPolls.CheckIsExact` | scripts/inspection-matched-http-evidence.py:165-169 | a leg passes the check exactly when no request of its run failed and no worker died |
| `ExpectedPolls.LegsAreWarm` | scripts/inspection-http-interference-evidence.hs:234-235 | every leg is measured under control: with all views warmed up first and the parent's go |
| `ExpectedPolls.NamesSayShapes` | scripts/inspection-http-interference-evidence.hs:271-278 | the name of an active mode says its views and clients |
| `ExportList.SplitTopLevelExports` | scripts/check-keiro-dsl-api-boundaries.py:109-135 | the loop returns just what the splitter is specified to: failure on block comments and imbalance, and else the normalised segments that are not empty |
| `ExportList.ScanMeans` | scripts/check-keiro-dsl-api-boundaries.py:116-130 | a text passes the scan exactly when no prefix closes more than it opens, and its commas are inside parentheses where that is asked |
| `ExportList.SpacesAre` | scripts/check-keiro-dsl-api-boundaries.py:112-131 | where lines end and words are separated, by code point |
| `ExportList.DashesExact` | scripts/check-keiro-dsl-api-boundaries.py:112-112 | a comment starts at the first two dashes next to each other |
| `ExportMeaning.LinesMean` | scripts/check-keiro-dsl-api-boundaries.py:112-112 | a text is cut into lines at each break, a carriage return with its line feed being one |
| `ExportMeaning.CommentMeans` | scripts/check-keiro-dsl-api-boundaries.py:112-112 | on each line what is in front of a comment stays and the comment goes, and the lines after it are read on |
| `ExportRoundTrip.SegmentsAre` | scripts/check-keiro-dsl-api-boundaries.py:113-127 | the segments joined by commas are the text, and each is balanced without top-level commas |
| `ExportRoundTrip.SegmentsOfJoin` | scripts/check-keiro-dsl-api-boundaries.py:113-127 | there is no other way to cut a text into such segments |
| `ExportRoundTrip.ScanNormalised` | scripts/check-keiro-dsl-api-boundaries.py:123-133 | normalising white space changes neither balance nor commas |
| `ExportRoundTrip.UncommentedPairs` | scripts/check-keiro-dsl-api-boundaries.py:112 | stripping comments leaves no two dashes together and brings no two characters together |
| `ExportRoundTrip.SplitGivesItems` | scripts/check-keiro-dsl-api-boundaries.py:109-135 | every item returned is normalised, balanced, without top-level commas or marks of comments |
| `ExportRoundTrip.RoundTripExact` | scripts/check-keiro-dsl-api-boundaries.py:109-135 | splitting items joined by comma and space returns them exactly when each is such an item |
| `ExportRoundTrip.SplitTwice` | scripts/check-keiro-dsl-api-boundaries.py:109-135 | what was split once is split into the same again |
| `TurnModel.ClaudeModel` | agents/skills/exec-plan/provenance-model.ts:82-102 | finds a model exactly when all records of turns are this session's and agent's and the assistant's last word, followed by tool results only, has that exact model |
| `TurnModel.CodexModel` | agents/skills/exec-plan/provenance-model.ts:64-80 | finds a model exactly when there is one session record, the expected one, and the latest turn has that exact model |
| `TurnModel.ExactIsStable` | agents/skills/exec-plan/provenance-model.ts:57-62 | a model that is found has no white space around it, is no stand-in, and is found again from its own text |
| `TurnModel.PromptEndsTurn` | agents/skills/exec-plan/provenance-model.ts:94-98 | after a prompt of the user no model is found |
| `TurnModel.ToolResultKeepsTurn` | agents/skills/exec-plan/provenance-model.ts:85-98 | results of tools and records outside turns leave the model as it is |
| `TurnModel.AssistantDecides` | agents/skills/exec-plan/provenance-model.ts:92 | after a record of the assistant its model is the one found, if any |
| `TurnMeaning.ExactMeans` | agents/skills/exec-plan/provenance-model.ts:57-62 | a value names a model exactly when it is a text with white space around the name at most, which is no placeholder and not `unknown` in any case |
| `TurnMeaning.ClaudeMeans` | agents/skills/exec-plan/provenance-model.ts:82-102 | over the JSON of the records: types, session, agent and side chain, message, content and model by their keys |
| `TurnMeaning.CodexMeans` | agents/skills/exec-plan/provenance-model.ts:64-80 | over the JSON of the records: the one session record with its id, and the latest turn context with its model |
| `RateQualification.RoundDownIs` | scripts/inspection-matched-http-evidence.py:79 | rounding gives the largest multiple of ten that is not above |
| `RateQualification.LadderIs` | scripts/inspection-matched-http-evidence.py:100-115 | the rates tried fall strictly, are multiples of ten of at least ten, and each is the reduction of the one before, until that is below ten |
| `RateQualification.Qualify` | scripts/inspection-matched-http-evidence.py:76-115 | takes the first rate with headroom after all larger ones failed, and fails exactly when none has it; a reused rate is taken exactly when its five baselines stand; what is taken is at most three quarters of each of five capacities |
| `RateQualification.TriedRatesAreSafe` | scripts/inspection-matched-http-evidence.py:79-113 | every rate tried is at most three quarters of every capacity |
| `RateQualification.ProposalIsLargest` | scripts/inspection-matched-http-evidence.py:79 | a multiple of ten is within the proposal exactly when it is at most three quarters of every capacity |
| `RateQualification.LadderFallsByAFifth` | scripts/inspection-matched-http-evidence.py:113 | each rate is at most four fifths of the one before, and less than ten below that |
| `RateQualification.QualifiedIsLargest` | scripts/inspection-matched-http-evidence.py:100-113 | no larger rate of those proposed had headroom |
| `EvidenceLegs.RotationIs` | scripts/inspection-matched-http-evidence.py:143-145 | however rotated, each mode is there once, the control first of all |
| `EvidenceLegs.RotationAt` | scripts/inspection-matched-http-evidence.py:143-145 | in each trial the control is first and the candidates follow in their order, moved by one more place each time |
| `EvidenceLegs.PairsAt` | scripts/inspection-matched-http-evidence.py:146-150 | a candidate and its own control are neighbours, in an order that alternates from trial to trial |
| `EvidenceLegs.PairStands` | scripts/inspection-matched-http-evidence.py:146-150 | where each control and candidate of a paired trial stands: the control first in odd trials, second in even ones |
| `EvidenceLegs.TrialIsComplete` | scripts/inspection-matched-http-evidence.py:142-153 | each trial has exactly the legs it needs, each once |
| `EvidenceLegs.PlanTrial` | scripts/inspection-matched-http-evidence.py:142-153 | builds the legs of a trial |
| `EvidenceLegs.PlanOrder` | scripts/inspection-matched-http-evidence.py:142-158 | lists the legs of all trials in the order they run: those needed in trials one to five |
| `EvidenceLegs.PlanHas` | scripts/inspection-matched-http-evidence.py:142-158 | the plan holds just the legs needed in the five trials, each once |
| `EvidenceLegs.DirectoriesNeverCollide` | scripts/inspection-matched-http-evidence.py:154-156 | no two legs of the plan write to one directory |
| `EvidenceLegs.FilesAre` | scripts/inspection-matched-http-evidence.py:155-163 | the result files of the legs by their names |
| `EvidenceLegs.ControlsAreWritten` | scripts/inspection-matched-http-evidence.py:155-177 | each control result read was written by one leg of the plan, the right control in the right trial |
| `EvidenceLegs.CandidatesAreWritten` | scripts/inspection-matched-http-evidence.py:155-178 | each candidate result read was written by one leg of the plan, that candidate in that trial |

## Left out

- Keiro's runtime, its DSL compiler, and everything else written in Haskell, but for the table of polling shapes.
- Processes, signals, git, cabal, nix, psql, HTTP and sockets: their outcomes are inputs of the model.
- Command lines, messages and exit codes; an error list counts by being empty or not, and the place of an error is kept where the code names one.
- The bootstrap confidence intervals, quantiles and headroom statistics of the benchmark tools: numeric libraries. Whether a rate has headroom is an input.
- Component and field parsing, the export contract and the check of prepared types in `scripts/check-keiro-dsl-api-boundaries.py`, and the header pattern before the splitter: single loops and regular expressions that would only add easy members.
- `resolveModel` in `agents/skills/exec-plan/provenance-model.ts` and the option checks of `record-provenance.ts`: straight-line validation. A request that passed them is what the model starts from.
- JSON parsing of session files: a line is taken as blank, malformed, or a value.
- Escapes of lone surrogates in quoted scalars read back as the replacement character, because characters are Unicode scalar values here. The script never writes such escapes.
- An entry key `__proto__`, which JavaScript's objects treat specially.
- Carriage returns at line ends: the model keeps them as characters of the line, as the script does; no theorem is about files with them in particular.
- Manifest fields that nothing reads again: `commit`, `started`, `finished`, `load_average`.
- Other scripts of the release workflow (preparation, archives, blueprints, publication checks), the record migration manifests and the archived copies under `keiro/bench/results/`.
- An exception inside the replay checker, such as an unhashable status, is counted as a problem and the check goes on; the script ends there, refused as well.
- PollingSchedule.Poll: the loop of one worker, whom an outer predicate stops or not; the others beside it are in `PollingProtocol`.
- RecordingHistories.HistoryIsTwoLogs: about lists that are apart, which is exactly when no request changes the other list (`ApartIffOthersStay`); what one run does to an entangled list is in `OtherKind`.
- RecordingPlans.NestedIsOverwritten: about a nested list that ends where the outer one does; where it ends earlier, `OtherKind` says which lines the outer list is read from.
- Interrupts of the polling client while its threads are being started, and a second interrupt during the final join.
- The mode without clients of the polling client, which makes one request and no thread.
- RateQualification.Qualify: rates are exact rationals where the script computes in floating point; `has_headroom` is a function of the rate, since each rate is tried once.
- EvidenceLegs.ControlsAreWritten: about names and plans; a leg that fails ends the script before the comparison.
