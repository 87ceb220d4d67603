# cavet: the event log and the state derived from it

cavet appends events to a log and keeps a derived state (findings, open items, display ids, metrics) beside it.
The log is the source of truth: replaying it must regenerate the state. This project models that core and proves it:

- the **replay** (`Rebuild`), the **delta fold** of a scan, the **metrics replay** and the **merge** of scanner
  observations, each as the loop the program runs, over shared pointers and in-place lists, equal to a function on values;
- the **commands** (scan, triage, suppress, defer, raise, resolve, init and rebaseline, database update, rebuild, the
  write of doctor fix) as steps of one state machine whose invariant is *state = replay(log)*: for each step the exact
  condition, over every run of steps that meet it the invariant, and in plain terms: any run of commands in strictly
  later seconds, without a silent baseline insert, clashing observations or ids, over fingerprints that differ in their
  first six digits, ends with a state that is the replay of the log, read back from its monthly files;
- the self-contained loops around it: display ids and their lookup, log files and truncation, doctor, the advisory-database
  bookkeeping, the SARIF projection and its parser, scope and coverage, shell quoting, the output tail.

## Modules

| module | what it holds |
|---|---|
| Wrappers | Option and Result |
| Events, LogOrder | event kinds and payloads, the constructors' validation, whole-second pinning; the order of log lines and the collapse of identical ones |
| Findings, Index, Replay, Rebuild | rows and their lives, the fingerprint index, the fold of a log as a function, and the replay loop as a class |
| Compaction, DisplayIds, AssignIds, Lookup | in-place compaction over one backing array, shortest unique prefixes, the array routine that assigns them, resolving what an operator typed |
| Delta, Fold, Batch, Orders, Refine | one scan's fold as a function, the pointer-updating routine, why the order of a scan's events does not matter, and the refinement |
| Commands, Repository, Effects | the commands as functions, as methods of one directory, and what each writes and each event replays to, field by field |
| Agreement, Mutations, Storing, ScanSteps, Amid, Overlap | what it means to be in step and what appending does to a replay, triage and its kin, the stored list, scans, scans that commands and other scans overtake |
| Items, ItemSteps | which items a replay opens and when it succeeds, as a matter of the set of lines; raise and resolve |
| Runs, Plain, Files | the whole-run invariant, the same in terms a caller can check, and with the log read from its files |
| Limits, Counterexamples, Witnesses, Reachable, Posture | where the invariant stops, concrete lists and runs at which promises fail, what every run leaves, and the counts over whole runs |
| Scans, Departures, Scope, Detections, Rows | one scan and its idempotence, what leaves over sequences of scans, scope and coverage, what a scan's events and rows say |
| Tally, Trend, Metrics, Records, TwoReplays | the metrics as functions, the one-pass snapshot, the loop as a class, the document record by record, and when the two replays agree |
| Merge, Collapse, Origins | what merging means, the loops, and where every field of a merged finding comes from |
| LogFile, Doctor, UpdateDb, Sarif, SarifFields, Tail, Shell | the loops nearby, and the tables of the SARIF parser and printer |

Lemmas that automatic induction would touch carry `{:induction false}`: every proof is the one written in its body.

Hashes, canonical encodings, item ids, the decoding of a line and the masking of a snippet are parameters, injective or
faithful only where a statement says so. A statement holds for every such function.

## What the code does where its comments say otherwise

The model follows the code. Each of these is a theorem below.

- `assignDisplayIDs` filters into the slice it was given (internal/store/rebuild.go:264 and :270), so a rebuild or a scan can lose a
  finding from the list it then writes and hold another one twice. It keeps the whole list exactly when the shortest unique
  prefixes never get longer along the list (`DisplayIds.ListSurvivesIff`, `DisplayIds.NothingLostIff`); with every id at
  six digits that is always so. Three fingerprints, of which the last two share six digits, fail it (`Counterexamples.CrowdedLoses`).
- So a finding can leave the state without a remediated event: the first scan of a new store may lose a finding it
  detects (`Witnesses.PlannedScanLoses`), and a later scan one that was stored (`Witnesses.SecondScanDrops`). What leaves is
  what a scan proved gone or a display id lost, and nothing else (`Departures.StaysIff`). A scan that sees only known findings
  and proves none gone loses none, because every list a run leaves went through the display ids (`Reachable.RunLeavesTidy`,
  `Reachable.SteadyScanLosesNothing`).
- "A rebuild reproduces state exactly" (internal/scan/delta.go:38-40) fails for a fingerprint that is in the baseline and not in the
  state: it is inserted without an event (`Limits.ScanKeepsStepIffRecorded`; a store that gets there in four commands, `Witnesses.BaselineRowBreaks`).
- The metrics replay "mirrors Rebuild's ordering" (internal/store/metrics.go:87-89) but forgets a suppressed finding that the state keeps; the
  two part when such a finding is detected or confirmed again (`TwoReplays.SameThroughoutIff`, `TwoReplays.SameVerdictIff`), and even
  when both call it open they may do so under different severities (`TwoReplays.SeveritiesPart`, `TwoReplays.OpenSeveritiesAgreeIff`).
- A partial line at the end of a log is ignored when reading (internal/store/log.go:54-56), but the next append continues that very
  line and is lost with it (`LogFile.AppendReadsBackIff`); so is a line of which only the newline was cut (`LogFile.NewlineAlone`).
- Events of one second are replayed in the order of their bytes, not of their making. A mutation keeps state and log in step
  exactly when the log bears it out (`Mutations.MutateKeepsStepIff`); a deferral in the second of its detection may not (`Limits.SameSecondBreaks`).
- A scan takes its instant before its scanners run (internal/scan/pipeline.go:163). Commands that commit meanwhile do no harm, scans
  of other findings included (`Overlap.UndisturbedFitsIff`); a scan that remediates what this one saw does
  (`Amid.LateRemediationBreaks`, exactly when in `Overlap.ScanOverlapKeepsStepIff`).
- `doctor fix` reads and compares before it takes the lock (internal/cli/doctor.go:255-272). It drops the findings and items
  that the lines appended since brought, and no others (`Doctor.DroppedIffBornSince`, `Doctor.ItemDroppedIff`).
- Raise and rebuild share the item id so that "they can never disagree" (internal/store/rebuild.go:188-191). They do when one question is
  raised twice in a second: the log collapses the two lines and the state lists the item twice (`ItemSteps.RepeatedRaiseBreaks`).
- Two branches that each replay may merge into a log that does not: exactly when they resolve one item by two lines
  (`Items.MergedReplaysIff`).
- The secret group key holds the path and the fingerprint does not, so one secret in two files yields two findings with
  one fingerprint (`Merge.SameSecretTwice`, and exactly when in `Merge.DistinctIff` and `Merge.IdealDistinctIff`).
- Coverage is honest for every configured Dockerfile. For one that is not, a full scan clears its image findings with other images
  alone (`Scope.FullScanClears`), and so does a staged scan of both files (`Scope.StagedScanClears`); exactly when, in `Scope.HonestIff`.
- An update run that stops between its writes leaves state record, event and pin apart, and a run that loaded before another
  recorded takes back the other one's pin (`UpdateDb.OverlapUnpins`, exactly when in `UpdateDb.AlignedIffLastWriters`).

## Model

| member | source | states |
|---|---|---|
| LogOrder.VisitedOrders | internal/store/rebuild.go:27-50 | replay visits exactly the lines of the log, each once, in strictly ascending (timestamp, bytes) order |
| LogOrder.VisitedAscends | internal/store/rebuild.go:27-33 | of two lines visited one after the other the first has the earlier instant, or the same and bytes that agree up to a point where they end or are smaller |
| LogOrder.VisitedDependsOnLineSet | internal/store/rebuild.go:27-50 | two logs with the same set of lines, in any order and with any repeats, are visited identically |
| LogOrder.VisitedAppend | internal/store/rebuild.go:27-50 | lines that sort after all others are visited after them, so replay can be continued |
| LogOrder.VisitedInsert | internal/store/rebuild.go:27-50 | one more line is visited in its place among the others, and a line already there changes nothing |
| LogOrder.VisitedGap | internal/store/rebuild.go:27-50 | lines that all sort into one gap of the visit are visited there, in their own order |
| Events.PinKeepsTheSecond | internal/events/canonical.go:21-35 | the canonical encoding keeps the second of an event, is idempotent, and never moves it later |
| Replay.ReplayDependsOnLineSet | internal/store/rebuild.go:27-156 | findings, items and success or error of a replay depend only on the set of log lines |
| Replay.FoldActsPerFingerprint | internal/store/rebuild.go:44-120 | whatever events are folded, fingerprints stay unique, every row keeps at least one and no repeated location, and each fingerprint ends in the row its own events alone would give it |
| Replay.StepActsPerFingerprint | internal/store/rebuild.go:52-155 | one event changes the row of its own fingerprint as that kind prescribes and no other, keeping the index invariant |
| Effects.BirthReplays | internal/store/rebuild.go:52-81 | a detection of an unknown finding appends a row whose every field is the payload's, the instant's or empty, secret exactly for gitleaks, a collapsed finding, or a rule that names a secret or token |
| Effects.KnownReplays | internal/store/rebuild.go:58-120 | an event about a known finding rewrites that row alone: a location and the last sight, the verdict word, confidence, reason, sources, instant and actor of a triage, a status, or its removal |
| Effects.GhostReplays | internal/store/rebuild.go:82-120 | an event other than a detection about an unknown finding changes nothing |
| Effects.RaiseReplays | internal/store/rebuild.go:122-136 | a raised event appends the item it describes, with -2 after its id when an open item has it |
| Replay.FindingEventsKeepItems | internal/store/rebuild.go:52-120 | finding events never fail a replay once they decode and never touch the open items |
| Rebuild.Store.Fold | internal/store/rebuild.go:52-155 | one iteration of the switch over shared pointers and the two indexes is one step of the replay function, or fails with its error; both indexes stay exactly those of their lists |
| Rebuild.Store.RemoveFinding | internal/store/rebuild.go:219-228 | removing a finding takes out that row and its index entry, keeps every other row in order, and keeps the index exact |
| Rebuild.Store.RemoveItem | internal/store/rebuild.go:230-239 | removing an item takes every item with that id and the index entry, and nothing else |
| Rebuild.VisitIsFold | internal/store/rebuild.go:40-50 | skipping lines already seen, inside the loop, is folding the log with identical lines collapsed |
| Rebuild.Rebuild | internal/store/rebuild.go:22-186 | fails exactly when replay fails and with its error; otherwise the items are replay's and the list is the replayed, baseline-marked list after display ids were assigned through its own backing array |
| Rebuild.MarkBaseline | internal/store/rebuild.go:173-183 | exactly the rows without a verdict whose fingerprint the baseline names are marked |
| Rebuild.FlaggedIff | internal/store/rebuild.go:173-183 | no replayed row is flagged before, so a flag afterwards means just that |
| Effects.RegeneratedRows | internal/store/rebuild.go:171-185 | every row a rebuild or a repair writes is a replayed row, its display id apart, flagged exactly when it has no verdict and the baseline names it; the items are those replayed |
| Compaction.ClosedRoundsStay | internal/store/rebuild.go:264-280 | rounds of filtering one backing array in place, each of which keeps a prefix of it, leave the array as it was |
| Compaction.StayingRoundsClose | internal/store/rebuild.go:264-280 | conversely, if such rounds leave it as it was, each of them kept a prefix of it |
| DisplayIds.ShortestUniquePrefix | internal/store/rebuild.go:255-284 | for distinct fingerprints every finding's id is its shortest prefix, of six to 64 characters, that no other fingerprint of the list shares |
| DisplayIds.ListSurvivesIff | internal/store/rebuild.go:263-284 | the caller's list is left as it was exactly when shortest-prefix lengths never increase along it |
| DisplayIds.NothingLostIff | internal/store/rebuild.go:263-284 | every finding is still somewhere in the caller's list exactly under the same condition |
| AssignIds.CountingPendingSuffices | internal/store/rebuild.go:265-275 | counting prefixes only among the findings still without an id decides uniqueness among all of them |
| AssignIds.AssignDisplayIds | internal/store/rebuild.go:263-284 | the in-place routine gives every finding handed in its shortest unique id and leaves in every slot of the array exactly the pointer that the rounds of filtering leave there |
| Lookup.ResolveFinding | internal/cli/finding.go:15-32 | the scan with one remembered match computes the answer |
| Lookup.ResolveMeaning | internal/cli/finding.go:15-32 | an answer is given if and only if it is the row carrying the id with at most one match before it, the only row matched, none, or two matched before any row carries the id |
| Lookup.AssignedIdResolves | internal/cli/finding.go:15-32 | typing an assigned display id finds exactly that finding, never ambiguity |
| Fold.Fold | internal/scan/delta.go:44-141 | the routine that updates rows through pointers, appends events and filters in place succeeds exactly when every event it constructs is valid, and then returns the events and rows of the fold function |
| Fold.MergeKnown | internal/scan/delta.go:56-69 | a known finding gets the new locations through its pointer and one event per new location; index and list stay in step |
| Fold.RemediationPass | internal/scan/delta.go:107-125 | exactly the rows not seen, whose scanner ran and whose every location was covered, are dropped, one remediated event each, the others kept in order |
| Orders.OrdersAgreeIff | internal/store/rebuild.go:27-50 | two orders of the same scan events give a fingerprint one row exactly when it was known before or its first detections agree on everything but the place |
| Batch.LivesDependOnSet | internal/store/rebuild.go:27-50 | compatible events lead a fingerprint to the same row in any order and with any repeats |
| Refine.FoldFollows | internal/scan/delta.go:36-141 | replaying a scan's events as emitted takes every fingerprint from the old row to the fold's row |
| Refine.FoldRefinesReplay | internal/scan/delta.go:36-141 | the same for any order and repetition of the events as the log holds them, pinned to whole seconds: the fold refines the replay |
| Refine.FoldEmits | internal/scan/delta.go:54-139 | a scan emits only detections of what it saw, remediations of what it did not see, and presentations, all at its own instant |
| Detections.FoldReports | internal/scan/delta.go:54-182 | every detected event of a scan has an observation with its fingerprint and place, and carries that observation's rule, severity, description, scanner, collapsed rules and dev mark, and the scan's digest exactly when the observation came from the database; remediations and presentations carry the fixed reason and the scan's context; all are signed by the scan |
| Detections.FoldDetectsOnce | internal/scan/delta.go:54-105 | when observations list each of their places once, a scan writes at most one detected event for a finding and a place |
| Detections.MergedPlacesOnce | internal/projection/merge.go:100-117 | what merging yields does list each place of a finding once |
| Detections.FoldShowsEach | internal/scan/delta.go:127-139 | a scan presents a finding once for every observation of it when it ends open or confirmed, and never otherwise |
| Detections.OnlyDatabaseIsBlamed | internal/store/metrics.go:161-186 | over any run of commands, a flow record the metrics of its log blame on the database is that of a detection that some scan of the run made of a database-derived observation, with a digest |
| Rows.FoldRow | internal/scan/delta.go:54-107 | every row of a fold is, field by field, that of the first observation of a new finding, or the old row with its last sight and more locations, or the old row; a seen row's locations are the old ones and those observed |
| Scans.LeavesIffProved | internal/scan/delta.go:107-125 | after a scan a known finding is gone exactly when the scan did not see it, ran its scanner and covered every recorded location |
| Scans.RemediatedOnceIffProved | internal/scan/delta.go:107-125 | a scan writes one remediated event for a finding it proves gone and none for any other fingerprint |
| Scans.SurfacedIff | internal/scan/delta.go:127-139 | a scan surfaces exactly the findings it saw that end open or confirmed, at its instant and in its context |
| Scans.FoldIdempotent | internal/scan/delta.go:54-141 | folding the same observations under the same coverage into the fold's own result emits nothing but presentations and changes nothing but when rows were last seen |
| Departures.FoldKnows | internal/scan/delta.go:54-125 | a fold of any list, copies included, knows a fingerprint afterwards exactly when the scan saw it or some row of it is not proved gone |
| Departures.RemediatedPerCopy | internal/scan/delta.go:107-125 | it emits one remediated event for every row of a fingerprint it proves gone |
| Departures.LeavesIff | internal/scan/pipeline.go:246-261 | a known finding leaves the stored state by a scan exactly when the scan proves every row of it gone or the display ids lose its last row, never both |
| Departures.RunIsHistory | internal/scan/pipeline.go:246-261 | a run of scan commands has such a history of stored lists and appends the lines of its events |
| Departures.StaysIff | internal/scan/pipeline.go:246-261 | a finding stays in the stored state through a whole sequence of scans exactly when none of them proves it gone or loses its row |
| Departures.RemediationsAreProofs | internal/scan/delta.go:107-125 | over any sequence of scans the remediated events of a fingerprint are as many as the rows of it proved gone |
| Departures.DeparturesRecorded | internal/scan/delta.go:107-125 | up to and including the first scan whose display ids lose anything, they are as many as its departures less those losses |
| Counterexamples.CrowdedLoses | internal/store/rebuild.go:263-284 | three findings of which the last two alone share six digits come back without the first and with the third twice |
| Witnesses.PlannedScanLoses | internal/scan/pipeline.go:246-261 | one planned full scan of a new store that sees three such fingerprints stores the second once and the third twice: a replay of the log knows the first, the state does not, and nothing was remediated |
| Witnesses.SecondScanDrops | internal/scan/pipeline.go:246-261 | a full scan that sees the first two leaves a store in step; the next one, which sees all three, drops the first without a remediated event |
| Reachable.RunLeavesTidy | internal/store/rebuild.go:263-284 | after any run from a new store, whose scans bring whole fingerprints and whose repairs replay a log read from it, prefix lengths never increase along the stored list unless it holds copies |
| Reachable.SteadyScanLosesNothing | internal/scan/pipeline.go:246-261 | on such a store, without copies, a scan that sees only known findings and proves none gone stores the same fingerprints in the same order |
| Counterexamples.CopiesRemediated | internal/scan/delta.go:107-125 | a scan that proves a finding gone whose row is there twice writes two remediated events |
| Scope.PlanScan | internal/scan/pipeline.go:164-214 | the scope switch chooses scanners, coverage and joined images as the plan function says, nothing-staged and no-images included |
| Scope.PlannedIff | internal/scan/pipeline.go:164-214 | a scan is planned unless nothing is staged, or images alone are asked for and none is configured |
| Scope.CoversIff | internal/scan/pipeline.go:164-214 | a plan covers a path exactly when the scope is full, or is staged or diff and git reports the path, or is the images and the path is a configured Dockerfile |
| Scope.RunsIff | internal/scan/scope.go:39-51 | its file-system tier runs gitleaks and trivy, checkov where opted in, and opengrep at full or deep, none for the images alone, which is also when there is no target |
| Scope.JoinsIff | internal/scan/pipeline.go:184-209 | a Dockerfile's image joins exactly when it is configured and the scope is full or images, or is staged and it is among the paths |
| Scope.CountsAsRunIff | internal/scan/pipeline.go:210-214 | the scanners an absence is held against are those of the tier, and trivy-image exactly when images join |
| Scope.PathScanSparesOutside | internal/scan/delta.go:107-125 | a staged or diff scan remediates and forgets no finding that has a location outside its paths |
| Scope.ImageScannerIff | internal/scan/pipeline.go:184-214 | trivy-image counts as having run exactly when the image phase takes part: a configured Dockerfile is staged, or the scope is full or image and images are configured |
| Scope.HonestIff | internal/scan/pipeline.go:184-214 | for any Dockerfile coverage is honest (an absence can be held against an image finding exactly when its own image was scanned) if and only if it is configured, or no image phase takes part, or the scope is the images alone, or the scope is what is staged and it is not |
| Scope.FullScanClears | internal/scan/pipeline.go:198-200 | a full scan with one configured image can clear findings of another Dockerfile |
| Scope.StagedScanClears | internal/scan/pipeline.go:170-186 | so can a staged scan of a configured and an unconfigured Dockerfile |
| Scope.UnscannedSurvivesIff | internal/scan/delta.go:114-123 | a finding survives a sequence of scans in which its scanner never runs exactly when no display ids lose its row |
| Scope.ImageFindingSurvivesIff | internal/scan/pipeline.go:170-214 | so does a trivy-image finding a sequence of planned scans without an image phase |
| Repository.Directory.MutateFinding | internal/cli/triage.go:126-159 | triage, suppress and defer move log and state as the command function says, and leave both alone when the id does not resolve or the event is invalid |
| Effects.TriageWrites | internal/cli/triage.go:40-75 | an accepted triage gives the resolved row the word for confirm or dismiss and the command's own confidence, reason, sources and instant, by the operator, leaves every other field and row, and appends one line that says the same |
| Effects.SuppressWrites | internal/cli/triage.go:77-98 | an accepted suppression silences that row alone and appends one line with the given reason |
| Effects.DeferWrites | internal/cli/triage.go:100-121 | an accepted deferral postpones that row alone and appends one line with the given reason |
| Effects.NothingWritten | internal/cli/triage.go:40-121 | and when the id resolves to no row, or the event is refused, nothing is written |
| Effects.MutationAcceptedIff | internal/events/constructors.go:18-32 | the three are accepted exactly with a reason, an engine and a whole fingerprint, and for a triage high or low confidence |
| Effects.DetectionAcceptedIff | internal/events/constructors.go:11-16 | a detection is accepted exactly with a rule, a path, a scanner, one of the five severities, a line from 1 on and a valid signature |
| Effects.ScanEventsAcceptedIff | internal/events/constructors.go:33-45 | remediations and presentations of a scan are accepted exactly with a known context, actor and phase, an engine and a whole fingerprint |
| Repository.Directory.Raise | internal/cli/lifecycle.go:25-66 | the same for raising an item |
| Effects.RaiseWrites | internal/cli/lifecycle.go:25-66 | an accepted raise appends the item with the given kind, question and finding, and one line that says the same, under the id of that line |
| Effects.AboutIs | internal/cli/lifecycle.go:39-46 | a verification is about the finding its text resolves to, a design item about none |
| Effects.RaiseAcceptedIff | internal/events/constructors.go:58-79 | it is accepted exactly with a question and an engine, as a design item about nothing or a verification of a whole fingerprint |
| Repository.Directory.Resolve | internal/cli/lifecycle.go:99-132 | the same for resolving one |
| Effects.ResolveWrites | internal/cli/lifecycle.go:99-132 | an accepted resolve closes the item and appends one line with the item, the answer and the sources |
| Effects.ResolveAcceptedIff | internal/events/constructors.go:81-90 | it is accepted exactly with an answer, an engine and an id of the shape it- and eight hex digits |
| Repository.Directory.Scan | internal/scan/pipeline.go:240-263 | the same for the locked section of a scan: fold, append, assign ids, rewrite |
| Effects.ScanWrites | internal/scan/pipeline.go:240-263 | a scan with an event that is refused writes nothing; otherwise its events are appended in order, pinned to whole seconds, and the rows of the fold are stored |
| Repository.Directory.RebuildState | internal/store/rebuild.go:22-186 | the same for a rebuild |
| Repository.Directory.Rebaseline | internal/cli/rebuild.go:109-148 | the same for recording the baseline, at init for every row and at rebaseline for those without a verdict: the file, the event, the flags, in that order |
| Effects.RebaselineWrites | internal/cli/rebuild.go:109-148 | the baseline becomes the fingerprints of all rows in order, and the rows without a verdict, or all of them at init, are flagged |
| Effects.RefusedWrites | internal/cli/lifecycle.go:20-126 | a raise about nothing it can resolve, or of a refused event, writes nothing, nor does a resolve of an item that is not open; a baseline whose event is refused is written all the same |
| Repository.Directory.RecordUpdate | internal/cli/engine_db.go:165-172 | the same for the event of a database update |
| Effects.UpdateWrites | internal/cli/engine_db.go:165-172 | a database update appends its artifact, digest and previous digest, and nothing without an engine, a digest or a known artifact |
| Repository.Directory.Restore | internal/cli/doctor.go:272-279 | the same for the locked write of doctor fix, of what was replayed from an earlier reading |
| Agreement.ReplayAppended | internal/store/rebuild.go:27-156 | appended lines that sort last are replayed on top of the state replayed so far |
| Agreement.ReplayInserted | internal/store/rebuild.go:27-156 | a line about a finding, wherever it sorts, is replayed in its place, fails no replay and leaves the items alone |
| Mutations.MutateKeepsStepIff | internal/cli/triage.go:126-159 | triage, suppress and defer keep state = replay(log), at any instant, exactly when at the place of their line the finding is alive and no line of it that sorts later ends it or decides the same anew, or the state said the same before |
| Mutations.SortedLastTakesEffect | internal/cli/triage.go:126-159 | so they do whenever their line sorts last |
| Items.ReplaySucceedsIff | internal/store/rebuild.go:122-146 | without a clash of item ids a replay succeeds exactly when every payload decodes and every resolved item was raised by an earlier line and is resolved by no other |
| Items.OpenItemsIff | internal/store/rebuild.go:122-146 | and then an item is open exactly when some line raises it and none resolves it, in whatever order they lie |
| Items.MergedReplaysIff | internal/store/rebuild.go:137-146 | of two branches that replay, the merged log replays exactly when no item is resolved by two lines |
| ItemSteps.RaiseKeepsStepIff | internal/cli/lifecycle.go:48-63 | raising, at any instant and without a clash of ids, keeps state = replay(log) exactly when the log does not hold the very line and every item raised by a line that sorts later is resolved again |
| ItemSteps.LastRaiseKeepsStepIff | internal/cli/lifecycle.go:48-63 | with a line that sorts last, clashes allowed, exactly when no open item already has the new id |
| ItemSteps.RepeatedRaiseBreaks | internal/cli/lifecycle.go:48-63 | a raise whose very line the log holds already breaks it |
| ItemSteps.ResolveKeepsStepIff | internal/cli/lifecycle.go:99-130 | resolving an open item, at any instant and without a clash of ids, keeps it exactly when the line that raises the item sorts before |
| ItemSteps.LastResolveKeepsStep | internal/cli/lifecycle.go:99-130 | with a line that sorts last it always does, clashes allowed |
| Runs.RebaselineKeepsStep | internal/cli/rebuild.go:109-148 | recording the baseline keeps it, wherever its line sorts |
| Runs.UpdateKeepsStep | internal/cli/engine_db.go:165-172 | so does the event of a database update |
| ScanSteps.ScanReplays | internal/scan/pipeline.go:246-261 | with its lines sorting last, replaying the log after a scan succeeds and gives the fold's rows and the same items |
| ScanSteps.ScanKeepsStepIff | internal/scan/pipeline.go:246-261 | a scan whose lines sort last and that inserts no baseline row keeps state = replay(log) exactly when the display ids spare the list |
| ScanSteps.ScanKeepsStepIffFirsts | internal/scan/pipeline.go:246-261 | whatever a scan observed, its lines sorting last, inserting no baseline row and with ids that spare the list, it keeps state = replay(log) exactly when, of every new fingerprint, the line that sorts first says what the first observation said |
| ScanSteps.LaterScanSortsLast | internal/scan/pipeline.go:163 | the lines of a scan sort last when its second is later than the whole log |
| Overlap.OverlapIff | internal/store/rebuild.go:27-50 | one fingerprint, scan events followed by anything at all that sorts after them: the state and the replay agree exactly when the scan does not touch it, or the later lines remediate it and the scan brings nothing new, or the scan remediates it and no later line detects it, or it was known before, or is new and born alike |
| Overlap.BornAlikeIff | internal/store/rebuild.go:52-155 | a finding that two scans see first, the one in the log and the other in the state: they leave one row exactly when both first sights say the same and no decision between them stands |
| Overlap.ScanOverlapKeepsStepIff | internal/scan/pipeline.go:163-261 | a scan overtaken by whatever commands and scans keeps state = replay(log) exactly when that holds of every fingerprint |
| Overlap.UndisturbedFitsIff | internal/scan/pipeline.go:163-261 | when no scan in between met what this one detects or remediates, that is: of every new fingerprint the first detection replays first and no later line decides its status |
| Amid.LateRemediationBreaks | internal/scan/pipeline.go:163-261 | a scan that saw what a scan begun later and committed earlier remediated does not |
| Runs.RestoreKeepsStepIff | internal/cli/doctor.go:254-283 | state written from a log read earlier is in step with the log by then exactly when the display ids spare the list and the lines added since make no difference to a replay |
| Runs.RestoreKeepsStepIffSince | internal/cli/doctor.go:254-283 | when the lines added since sort after it: exactly when the ids spare the list, every fingerprint's life under those lines ends as it was, they resolve no open item, and resolve every item they raise |
| Runs.RebuildKeepsStepIff | internal/store/rebuild.go:22-186 | a rebuild establishes state = replay(log), whatever the state was, exactly when the display ids spare the list |
| Storing.StoredLoses | internal/store/rebuild.go:184-185 | when prefix lengths increase along the list, the stored list lacks a finding |
| Storing.StoredUniqueIff | internal/store/rebuild.go:263-284 | and repeats one exactly then |
| Runs.RunKeepsStep | internal/cli/triage.go:146-156 | any run of commands, each of which meets its own condition, ends in step if it begins in step |
| Runs.StateIsReplay | internal/scan/pipeline.go:246-261 | from a new store, after any such run the log replays without error to the findings and open items on disk |
| Plain.PlainRunKeepsStep | internal/scan/pipeline.go:246-261 | any run from a new store whose commands come in strictly later seconds, and meet no silent baseline insert, clashing observations, item-id clash or list the display ids do not spare, meets all those conditions, and ends with state = replay(log) |
| Plain.ClearRunKeepsStep | internal/scan/pipeline.go:246-261 | when the observed fingerprints differ in their first six digits no list can be harmed, and the other three conditions suffice |
| Files.FilesReadBack | internal/store/log.go:36-71 | events appended to the files of their months read back, from the files in any order, as exactly the lines written |
| Files.StateIsReplayOfFiles | internal/store/log.go:36-71 | after any run that meets its conditions, reading the monthly files and replaying what was read gives the findings and items on disk |
| Limits.ScanKeepsStepIffRecorded | internal/scan/delta.go:70-102 | a scan whose ids spare the list keeps state = replay(log) exactly when every observation is known or outside the baseline |
| Limits.SilentInsertBreaks | internal/scan/delta.go:70-102 | a row inserted without an event is not what replay gives, even if a repeated observation adds events for it later |
| Witnesses.BaselineRowBreaks | internal/scan/delta.go:70-102 | a finding seen, made part of the baseline, remediated and seen again: the store is in step after each of the first three commands, and not after the fourth |
| Limits.SameSecondBreaks | internal/store/rebuild.go:27-33 | a deferral in the second of its detection, sorting first by bytes, breaks state = replay(log) |
| Limits.MergeFeedsScan | internal/projection/merge.go:35-100 | merged observations have locations and whole fingerprints, and are uniform unless secret groups clash |
| Tally.CountersAlwaysExact | internal/store/metrics.go:129-145 | at every step each severity counter is the number of live actionable records of that severity, the total that of all of them, and none is negative |
| Tally.TotalIsTheSum | internal/store/metrics.go:136-145 | the total is the sum of the counters over any list of severities that covers the live records |
| Tally.NewIsConserved | internal/store/metrics.go:187-266 | new records = live + remediated + suppressed while live, at every step |
| Tally.RemediationsPair | internal/store/metrics.go:249-266 | fixed, resolve and remediated records match one to one in time, actor and lag |
| Tally.CauseIff | internal/store/metrics.go:161-186 | a new record is blamed on the database exactly when its detection's digest is set and differs from the set digest of the previous scan's era, scan-end events of one instant ending one era |
| Tally.LagsNeverNegative | internal/store/metrics.go:131-133 | every lag is at least zero |
| Trend.DocumentLags | internal/store/metrics.go:131-133 | so it is in the document computed from any log |
| Trend.ScanTimesAre | internal/store/metrics.go:99-109 | scan times are exactly the instants at which some line surfaced or remediated, each once, ascending |
| Trend.OnePassComputes | internal/store/metrics.go:110-181 | the one pass with its snapshot yields the document whose previous counts come from a second computation over the earlier lines |
| Trend.PreviousIsCurrentThen | internal/store/metrics.go:147-181 | the previous counts are the current counts of the whole computation on the lines at or before the second-to-last scan |
| Trend.DocumentDependsOnLineSet | internal/store/metrics.go:90-114 | the document depends only on the set of log lines |
| Metrics.Meter.Count | internal/store/metrics.go:182-272 | one iteration of the switch over shared live records is one step of the metrics function, or fails as it does |
| Metrics.Meter.SetActionable | internal/store/metrics.go:136-145 | the flag and the two counters turn together |
| Metrics.ComputeMetrics | internal/store/metrics.go:90-276 | the loop with its duplicate check, boundary shift and snapshot returns that document, or its error |
| Records.LiveIs | internal/store/metrics.go:187-272 | after any events a finding has a live record exactly when it was detected and neither remediated nor suppressed since, and the record holds that detection's instant, rule, severity and scanner and the locations detected since |
| Records.CountedIff | internal/store/metrics.go:187-272 | the metrics of a log are computed exactly when every detection decodes, and every triage and remediation of a finding then held |
| Records.DocumentRecords | internal/store/metrics.go:131-272 | the document of any log, record by record: which events add a flow record and with what word and cause; that a triage or resolve lag in hours, times 3600 seconds, is the event's instant less the first detection since the finding was last remediated or suppressed; that a remediated record has that detection's rule, severity and scanner, the locations detected since, and the event's reason and actor |
| TwoReplays.SameThroughoutIff | internal/store/metrics.go:233-239 | after every event both replays agree on whether a fingerprint is open, exactly when no suppressed finding of it is detected or confirmed before being remediated |
| TwoReplays.SameVerdictIff | internal/store/metrics.go:187-272 | after any events both replays agree on whether a fingerprint is open exactly when it is not parted: a revival parts them, a second one or a closing event joins them again |
| TwoReplays.OpenSetsAgreeIff | internal/store/metrics.go:187-272 | a rebuild and the metrics of a log call the same findings open exactly when none is parted at its end |
| TwoReplays.OpenSeveritiesAgreeIff | internal/store/metrics.go:187-272 | severity by severity they hold the same findings open exactly when none is parted, and of each open one the first detection since its last remediation has the severity of the first since its last remediation or suppression |
| TwoReplays.SeveritiesPart | internal/store/metrics.go:200-239 | detected, suppressed, detected with another severity, confirmed: both call it open, the state under the first severity and the metrics under the second |
| TwoReplays.ReplaysAgree | internal/store/metrics.go:187-272 | on a log a rebuild accepts, with decodable reasons and no such revival, metrics are computed and every counter is the number of open or confirmed findings a rebuild restores, per severity and in total |
| TwoReplays.RevivedIsCounted | internal/store/metrics.go:200-210 | detected, suppressed, detected again: metrics count a finding the state calls suppressed |
| Posture.CountsAreTheState | internal/store/metrics.go:187-272 | after any such run from a new store without a revival, the metrics' current counts are the open and confirmed findings on disk |
| Posture.OpenAreTheStateIff | internal/store/metrics.go:187-272 | after any such run, revivals or not, the metrics hold as open the very findings the disk does exactly when none is parted at the end of the log |
| Merge.EveryObservationKept | internal/projection/merge.go:44-99 | every observation ends up in a finding of the output that has its location and its identity: its group's secret finding, with its rule id as the winner's or among the collapsed ones, or the finding with its fingerprint, with its dev mark |
| Merge.NothingInvented | internal/projection/merge.go:64-99 | every finding of the output is made of observations and located exactly where they were, without repeats and nowhere else |
| Merge.SecretKeepsRules | internal/projection/merge.go:65-76 | the winner's rule id and the collapsed rule ids are together the rule ids of the group |
| Merge.OthersDistinct | internal/projection/merge.go:78-98 | outside the secret collapse no two findings share a fingerprint |
| Merge.DistinctIff | internal/projection/merge.go:44-99 | the output repeats no fingerprint exactly when the observations that win their secret groups differ in rule key and span hash across groups, and from every observation outside the collapse |
| Merge.IdealDistinctIff | internal/projection/merge.go:44-99 | without hash collisions, exactly when no two winners in different files, and no winner and other observation, have one rule key and span |
| Merge.SameSecretTwice | internal/projection/merge.go:46-51 | one secret in two files gives two findings with one fingerprint and different locations |
| Collapse.GroupGrows | internal/projection/merge.go:47-58 | one more member displaces the winner exactly when its priority is better; the closed form of winner and losers is what the loop maintains |
| Collapse.MergeAll | internal/projection/merge.go:35-100 | the loops over shared groups and findings return the merged list, winner the first member of best priority, in order |
| Origins.CollapsesIff | internal/projection/merge.go:128-154 | an observation takes part in the secret collapse exactly when its span is not blank and it is gitleaks', or of a trivy rule that names a secret or token, or of opengrep's secrets subtree |
| Origins.SecretsSpeak | internal/projection/merge.go:44-126 | every secret finding has the fingerprint, rule id, key, CWE, severity, description, scanner and marks of the first gitleaks member of its group, or of its first member when it has none |
| Origins.SpeakersAreHeard | internal/projection/merge.go:44-126 | and every such observation has its finding |
| Origins.EveryGroupSpeaks | internal/projection/merge.go:44-62 | every secret group has one |
| Origins.OthersSpeak | internal/projection/merge.go:78-117 | every other finding has those of the first observation with its fingerprint, a package identity for images and a rule and span for the rest, and is marked dev exactly when some observation of it is |
| Origins.SecretsInOrder | internal/projection/merge.go:44-76 | secret findings come in the order in which their groups begin |
| Origins.OthersInOrder | internal/projection/merge.go:78-98 | the others follow in the order of their first observations |
| LogFile.ReadOne | internal/store/log.go:73-111 | scanning a file line by line with one pending partial line yields what the reading function says |
| LogFile.ReadsIff | internal/store/log.go:84-110 | a file reads without error exactly when no line is too long and every line that matters decodes, except that one breaking off may be the last that matters |
| LogFile.ErrorNames | internal/store/log.go:84-106 | an error names a line that is too long or does not decode, or that breaks off before another that matters |
| LogFile.CarriageReturns | internal/store/log.go:73-111 | a carriage return before each newline makes no difference to what a file reads as |
| LogFile.TruncationIsSafe | internal/store/log.go:36-51 | any byte prefix of what appends wrote reads back, without error, as a prefix of the appended events |
| LogFile.SurvivorsAre | internal/store/log.go:53-56 | that prefix lacks exactly the events whose line, its newline apart, was not wholly written |
| LogFile.AppendsReadBack | internal/store/log.go:36-51 | what was appended, untouched, reads back whole |
| LogFile.StumpSwallowsAppend | internal/store/log.go:44-50 | after a cut inside a line the next append becomes one line with it: reading then yields the ended lines alone, or an error at that line |
| LogFile.AppendReadsBackIff | internal/store/log.go:36-111 | after a cut the next append reads back, with all that survived, exactly when the cut file ends in a newline |
| LogFile.NewlineAlone | internal/store/log.go:44-50 | a line whose newline alone was cut reads back until the next append, which loses it |
| LogFile.LogReadsIff | internal/store/log.go:57-71 | the log reads without error exactly when every file of it does |
| LogFile.ReadLog | internal/store/log.go:57-71 | the files are read in order and concatenated, up to the first error |
| Doctor.DiffState | internal/cli/doctor.go:81-123 | the comparison lists what its definition says, disk-only findings once each in any order |
| Doctor.FoundIff | internal/cli/doctor.go:28-31 | drift is found exactly when disk and replay differ on fingerprints, status, verdict text, baseline flag or item ids |
| Doctor.DriftIff | internal/cli/doctor.go:28-31 | for verdict words without NUL, drift is found exactly when a finding is on one side only, or its status, verdict word, verdict reason or baseline flag differ, or the open items' ids do |
| Doctor.ListedShort | internal/cli/doctor.go:81-123 | disk-only findings are listed by the first eight digits of their fingerprints |
| Doctor.ListsAre | internal/cli/doctor.go:81-123 | findings only replay knows and findings whose status, verdict or flag differ are reported each in its own list, by the same short form |
| Doctor.ItemListsAre | internal/cli/doctor.go:81-123 | and items on one side only by their ids |
| Doctor.SafeIff | internal/cli/doctor.go:33-38 | fixing is safe exactly when replay knows every finding and item on disk |
| Doctor.ReplicaConsistent | internal/cli/doctor.go:149-171 | a replay, even clobbered by display ids, repeats a fingerprint only with equal reports, so the comparison is sound for it |
| Doctor.Examine | internal/cli/doctor.go:254-271 | the unlocked half proposes the replayed state exactly when it differs from the disk and knows all the disk knows |
| Doctor.Fix | internal/cli/doctor.go:254-283 | both halves with nothing in between write exactly that proposal, and otherwise change nothing |
| Doctor.RepairIsSafe | internal/cli/doctor.go:254-283 | with nothing in between, a fix drops no finding and no item, and doctor run again finds nothing to repair |
| Doctor.NoFindingDroppedIff | internal/cli/doctor.go:254-283 | in general the write drops no finding on disk exactly when the log, as it was read, knows every one stored since |
| Doctor.NoItemDroppedIff | internal/cli/doctor.go:254-283 | and the same for items |
| Doctor.DroppedIffBornSince | internal/cli/doctor.go:254-283 | on a store in step it drops a finding exactly when the log it read did not know it and the lines appended since bring it to life |
| Doctor.ItemDroppedIff | internal/cli/doctor.go:254-283 | and an item exactly when a line appended since raised it, none before did, and none since resolved it |
| Doctor.RaisedInBetweenIsLost | internal/cli/doctor.go:254-283 | an item raised in between is dropped from the state while its line stays in the log |
| Doctor.InStepDrift | internal/cli/doctor.go:81-123 | on a store in step the only drift doctor can see is in the baseline flags |
| UpdateDb.Host.RecordDBUpdate | internal/cli/engine_db.go:128-179 | state record, event, pin are written in that order, and stopping after any of them leaves exactly the earlier ones |
| UpdateDb.RecordedIs | internal/cli/engine_db.go:128-179 | what each of the three writes leaves: the digest and both instants, the operator's event with the digest recorded before, and the pin of that artifact alone |
| UpdateDb.LandedIs | internal/cli/engine_db.go:128-179 | a recording gets past its first write only for a known artifact, a digest and an engine |
| UpdateDb.Host.RunUpdateDB | internal/cli/engine_db.go:54-106 | the artifacts in turn from one loaded configuration: what is written, and how many were considered and updated |
| UpdateDb.UpdatedAreLogged | internal/cli/engine_db.go:54-106 | a run that is not cut short has updated as many artifacts as it logged |
| UpdateDb.ConsideredAreReached | internal/cli/engine_db.go:54-106 | and has considered every artifact but java-db without a volume |
| UpdateDb.SessionIsActions | internal/cli/engine_db.go:54-106 | a run of the command is one load followed by recordings |
| UpdateDb.PinsAreLogged | internal/cli/engine_db.go:108-127 | however runs overlap outside the lock, stop and are retried, every pin that is not the original one has an event for its artifact and digest |
| UpdateDb.RecordAlignsIff | internal/cli/engine_db.go:128-179 | under any overlap, what one recording makes of the agreement of state record, last event and pin, for either artifact and however many of its writes land |
| UpdateDb.OtherStaysIff | internal/cli/engine_db.go:128-179 | an aligned artifact stays so through a recording of the other exactly when that one stops or its run holds the right pin |
| UpdateDb.AlignedIffLastWriters | internal/cli/engine_db.go:54-179 | however runs overlap, stop and are retried, the three are equal exactly when the last recording to reach each of them left the same digest |
| UpdateDb.OverlapUnpins | internal/cli/engine_db.go:80-83 | two runs that load before either records leave the first artifact with a pin that is not its record |
| UpdateDb.AlignedIffSettled | internal/cli/engine_db.go:80-83 | one run after the other, they are equal exactly when the last recording that wrote anything wrote everything |
| UpdateDb.RetrySettles | internal/cli/engine_db.go:112-118 | a recording that stopped early is short-circuited on retry exactly when the pin already is its digest, and a retry that completes makes all three equal |
| Sarif.TrivySARIFRun | internal/projection/tosarif.go:57-99 | the loop prints one rule per rule id, where it first occurs, and one result per finding |
| SarifFields.PrintedIs | internal/projection/tosarif.go:57-133 | one result for every finding in order, with its level, text, place and dev mark; one rule for every rule id, in the order they occur, with the level, severity token and CWE of the first finding with it |
| Sarif.Parse | internal/projection/sarif.go:91-153 | the parser returns a finding or a warning per result, in order, rules resolved by index, else by first id |
| SarifFields.ParsedIs | internal/projection/sarif.go:114-235 | a result is dropped exactly when an image row lacks its package or another row its location; otherwise every field of its observation is what the rule it refers to and the result say: path, line, snippet, CWE, one-line description, and the severity of gitleaks, checkov, trivy's tags or opengrep's level |
| SarifFields.OneLineJoins | internal/projection/sarif.go:237-240 | collapsing white space joins the words of a text by single blanks |
| Sarif.RoundTripIff | internal/projection/tosarif.go:66-99 | parsing the projected run returns the same rule ids, CWEs, severities, paths, lines and descriptions, in order and without warnings, exactly when every finding is clean and has the severity and CWE its rule id had first |
| Sarif.OneLineIff | internal/projection/sarif.go:237-240 | collapsing white space leaves a text alone exactly when its only white space is single blanks between words |
| Sarif.PathBack | internal/projection/sarif.go:194-202 | a path survives stripping exactly when it has no backslash, no leading slash and not the target's prefix |
| Sarif.CweBack | internal/projection/sarif.go:224-235 | a CWE survives as a tag exactly when it is empty or starts with CWE- and has no colon |
| Sarif.MergeUnchanged | internal/projection/merge.go:78-98 | merging trivy findings that went through SARIF yields the same fingerprints at the same places |
| Tail.TailWriter.Write | internal/engineclient/image.go:138-152 | shifting and overwriting the fixed buffer leaves the last 300 bytes of its content and the new bytes |
| Tail.KeepsTheTail | internal/engineclient/image.go:130-154 | after any writes that is the last bytes of all that was written |
| Tail.WriteAll | internal/engineclient/image.go:138-152 | so it is of the buffer itself |
| Shell.QuotedIsOneWord | internal/scan/scope.go:129-131 | any string, quoted, is read by the shell's quoting rules as one word, itself |
| Shell.CommandLineReads | internal/scan/scope.go:129-131 | quoted words separated by blanks are read as those words |
| Shell.SplitNUL | internal/scan/scope.go:53-61 | the loop keeps the non-empty pieces |
| Shell.SplitInvertsIff | internal/scan/scope.go:53-61 | splitting inverts NUL-terminated joining exactly on lists of non-empty NUL-free paths |

## Left out

- Runs.StateIsReplay: compares the attributes replay restores, locations as a set and times to the second; last_seen, rule_key, secret, collapsed_with and in_baseline are not restored by the code and not compared.
- Runs.StateIsReplay: assumes at every step what the step's own exact statement asks, which Runs.Allowed collects; Plain.PlainRunKeepsStep derives it from terms a caller can check.
- ItemSteps.RaiseKeepsStepIff: assumes that no two lines of the log raise one item id; with a clash, only a line that sorts last is settled (ItemSteps.LastRaiseKeepsStepIff). The same goes for ItemSteps.ResolveKeepsStepIff, Items.ReplaySucceedsIff and Doctor.ItemDroppedIff.
- Files.StateIsReplayOfFiles: lines stay under the reader's 16 MiB limit and every append completes; what a cut append does is the subject of LogFile.
- Overlap.ScanOverlapKeepsStepIff: the scan's lines sort into one gap of the log, as they do unless another line has their very second.
- Departures.DeparturesRecorded: after a loss rows may be there twice and events are counted per row, as Departures.RemediationsAreProofs says.
- Refine.FoldRefinesReplay: observations with one fingerprint must agree on what an event records; ScanSteps.ScanKeepsStepIffFirsts says exactly what happens when they do not.
- LogFile.TruncationIsSafe: that a strict prefix of a canonical line breaks off early, and that such a line holds no line break, are assumptions about the encoding.
- LogFile.AppendReadsBackIff: that a beginning of a canonical line run into a canonical line is never a line of its own is an assumption about the encoding too.
- Posture.CountsAreTheState: says which counts follow when nothing is revived, as a condition on the log and not on the commands.
- TwoReplays.ReplaysAgree: assumes the reasons of remediated events decode, as every event the constructors accept does; a rebuild never looks at them.
- Sarif.Parse: JSON decoding and the cutting of a package identity out of a message are parameters; letter case is folded only as far as the severity words can tell.
- Rebuild.Rebuild: the warnings on standard error, the reading of baseline.json and the writing of files.
- The lock file: every locked section is one atomic step; what a command reads before it takes the lock is a parameter of its step (the observations of a scan, the log and baseline doctor fix replayed).
- Hashing, JSON and YAML encodings, the masking of snippets and the regular expressions behind it.
- The instant arithmetic's limits: instants are unbounded, nanosecond keys do not wrap and durations do not saturate.
- Lags are exact rationals in hours, not floating point.
- Git, containers, registries, volumes and every other foreign effect; what they report is a parameter.
- The dashboard, table rendering, pagination, network look-ups, installers and option parsing, which hold only easy arithmetic.
