# Job sweep: a verified model

A Dafny 4.11 model of the job-sweep repository: the parts that keep state and make promises
about it. It covers the scraper's deduplication, the scorer and its replayable vector, the
sweep driver with its runner, run supervision with its event stream and scoring pass, the
Today queue, user state with its event log, and the migrations that moved old data into the
posting graph.

`dafny verify dfyconfig.toml` checks everything. Every module opens with a comment that says
what it models; functions and predicates state what is wanted, methods and classes run the
loops and updates of the source and are proved to do exactly that, and lemmas hold the
theorems.

| files | what they are about |
|---|---|
| `Redirects`, `ArtifactImport`, `LineBuckets`, `LegacyImporter`, `Audit` | the posting redirect graph, the importer of the legacy artifacts, the audit's cycle count and conservation |
| `Ordering`, `TodayQueue`, `QueueOrder`, `QueueChoice`, `QueueDetails`, `QueueAccounts`, `QueueVerdicts`, `QueueComposer` | the queue as a greedy fold, its order, choice and left-out rows in the jobs' fields, its caps, conservation and maximality, and `build_queue` itself |
| `Sweep`, `SweepRunner`, `SweepEvents` | the persisted step table, the runner over it, and its live events |
| `RunSupervision`, `RunVerdicts`, `RunHistories`, `RunAdmission`, `LostRuns` | supervised runs under all interleavings, what their events say of them, which are let in, and what a lost supervisor lets through |
| `GraphPages`, `GraphPass`, `RunEvents`, `EventStream`, `StreamCloses` | the paged scoring pass among other connections, event numbering, the reader and how its stream ends |
| `FeatureVector`, `Scoring`, `Tiers`, `Hireability`, `OddsInWords` | both scoring axes and the replay, and both in numbers |
| `UserState`, `UserDatabase`, `UserColumns`, `IngestOutcome` | edits, quick actions and ingest, what they leave in columns and log, ownership of urls |
| `Rekey`, `MigrationRunner`, `AliasWindows`, `AliasOwners`, `AliasBackfill` | migration 3, the runner, migration 11's url windows |
| `Utf8`, `Base64Url`, `JobIds`, `Dedupe`, `DedupeColumns` | job ids from urls, and the merging dedupe |

## How the source is represented

- Strings that are only compared are integers: equal strings are equal numbers, and where
  order matters the number is the string's rank. Dates and instants are integers too. Hashes
  and UUIDs are injective, so a key is the data hashed into it.
- SQL tables are maps, sets or sequences in an object's fields; a transaction saves them and
  puts them back. What SQLite, the file system, subprocesses, the network and the scheduler
  do is a nondeterministic choice or a parameter.
- A protocol is a step function over events, and its theorems hold for every sequence of
  events. A run's supervisor is atomic between two `await`s; the scoring thread's check, page
  selection and commit are separate steps.
- In a child's output the marker lines are those of `sweep.py` itself.

## Where the code and its promises part

- The queue says that its accounting always holds. For any given jobs it holds under every slot
  cap exactly when no two jobs that pass the gate share a url (`AccountedForEveryCap`); two
  postings with the empty url, which `canonical_reads.py:771` allows, lose one
  (`EmptyUrlsLoseAJob`).
- The importer says that every line ends in one bucket. A few lines the code can read raise
  instead and roll the whole import back: JSON that fails with another error than the two caught,
  such as a number of too many digits; a url that cannot be bound, such as a lone surrogate; a
  first-seen text beyond the range of UTC. An import succeeds exactly when no new file holds one
  (`ImportSucceedsAndRepeats`, `OverflowStopsTheImport`).
- Marking a job applied replays from the log unless its date is the empty text: SQL's
  `COALESCE` keeps it and Python's `or` does not (`EditKeepsLog`, `BlankDateLosesTheReplay`).
- After a cancel at most one more operation commits, and the pass does not close, while the
  supervisor lives. When the supervisor itself is lost the run leaves the active table, in which
  the worker looks for the flag, and the worker goes on and may close the pass
  (`CloseAfterCancel` and `SecondLateCommit` say from where, `LostSupervisorClosesThePass` shows
  it).
- A closing full pass consumes every open invalidation "because it covered every posting". It
  covers those with recorded content, and a posting that survived a merge may have none of its
  own, although `graph.py:336-369` could score it through the posting merged into it
  (`NothingLostIff`, `SurvivorLost`). In either mode an invalidation opened while the pass runs,
  for a posting already scored, is consumed too (`LateRowLost`).
- A capped record of a step that is no longer in the sweep is found by every run, once the known
  capped steps are skipped, and cannot be skipped itself. No run starts a step until a reset
  (`SweepRunner.Runner.Run`, `KnownAndUnknownBlock`).
- Every sweep is to end in one terminal event. One whose task a shutdown cancels emits none
  (`SweepRunner.Runner.Run`).
- Migration 11 archives "multiple lineages share latest URL observation" by looking at the
  lineage that started last, which need not be the one seen last (`ArchivedTieIsTheLatest`,
  `SharedLatestMissed`).
- The decoder of job ids accepts strings that are no ids (`DecodingIsLenient`), and raises on
  canonical base64url that is not UTF-8 (`CanonicalButNoUrl`); the encoder makes neither.

## Model

| member | source | states |
|---|---|---|
| `Redirects.RedirectTarget` | webapp/backend/pipeline/legacy_import.py:96-108 | the loop ends for every map and start; the target is the unique sink of the chain when there is one, and the cycle flag is up exactly when the chain runs into a cycle |
| `Redirects.SinkUnique` | webapp/backend/pipeline/legacy_import.py:96-108 | a chain ends in at most one posting |
| `Redirects.NoSinkIffMeetsCycle` | webapp/backend/pipeline/legacy_import.py:96-108 | in any finite redirect map a chain has no sink exactly when it reaches a posting on a cycle |
| `Redirects.SinkFromAnywhere` | webapp/backend/pipeline/legacy_import.py:202-210 | every posting along a chain has the chain's sink, so collecting sinks identifies chains |
| `Redirects.AcyclicIffEverySink` | webapp/backend/pipeline/legacy_import.py:96-108 | the graph is acyclic exactly when every chain reaches a sink |
| `Redirects.InsertMovesSinks` | webapp/backend/pipeline/legacy_import.py:138-180 | an edge from one sink to another moves the sink of exactly the postings that ended at the first to the second; every other sink stays |
| `Redirects.InsertKeepsCycles` | webapp/backend/pipeline/legacy_import.py:138-180 | such an edge adds and removes no cycle, on any map, cyclic or not |
| `Redirects.CyclesDisjoint` | webapp/backend/pipeline/audit.py:139-155 | two cycles of the graph are equal or share no posting, so a cycle is counted once |
| `Redirects.QuietTrail` | webapp/backend/pipeline/audit.py:145-154 | following a chain that ends or meets visited postings adds no cycle to those found |
| `Redirects.LoopingTrail` | webapp/backend/pipeline/audit.py:145-154 | following a chain that comes back to itself adds exactly one cycle, the part of the path from the repeated posting on |
| `Redirects.RedirectCycleCount` | webapp/backend/pipeline/audit.py:139-155 | the shared visited set and per-start paths count exactly the distinct cycles, for every map and every order of starts |
| `Redirects.ZeroCyclesIffEverySink` | webapp/backend/pipeline/audit.py:139-155 | the count is 0 exactly when every chain reaches a sink |
| `ArtifactImport.LineOutcome` | webapp/backend/pipeline/legacy_import.py:120-295 | every non-blank line that does not raise ends in exactly one of mapped, duplicate, malformed and archived, with the archive row or evidence row that bucket stands for, and the store stays valid |
| `ArtifactImport.ResolutionUnites` | webapp/backend/pipeline/legacy_import.py:120-180 | a mapped or duplicate resolution leaves both postings with the canonical sink and moves no chain except those that ended at the aggregator posting |
| `ArtifactImport.RunForwards` | webapp/backend/pipeline/legacy_import.py:120-180 | over a whole file no cycle appears or disappears, and every posting ends where its old sink now leads; from an acyclic map the map stays acyclic |
| `ArtifactImport.RunCounts` | webapp/backend/pipeline/legacy_import.py:344-362 | over any store the counts of a file add up to its non-blank lines, so the accounting error cannot be raised |
| `ArtifactImport.RunAccounts` | webapp/backend/pipeline/legacy_import.py:344-362 | the archive grows by exactly the malformed plus the archived lines of a file not seen before |
| `ArtifactImport.RunLeavesTraces` | webapp/backend/pipeline/legacy_import.py:49-93 | each line read so far has left its archive row or its evidence row, and later lines do not remove it |
| `ArtifactImport.RunNeverLater` | webapp/backend/pipeline/legacy_import.py:240-279 | a posting's first-seen instant only ever moves to an earlier one |
| `ArtifactImport.RunArchivesOnlyItself` | webapp/backend/pipeline/legacy_import.py:49-63 | importing a file files archive rows under that file only |
| `ArtifactImport.FreshFile` | webapp/backend/pipeline/legacy_import.py:311-376 | a new file none of whose lines raises imports, its counts add up and match the growth of the archive, and its ledger row closes with them |
| `ArtifactImport.FileImports` | webapp/backend/pipeline/legacy_import.py:311-376 | on a settled store a file imports exactly when it is missing, known, or holds no line that raises; a raising line is the only error there is |
| `ArtifactImport.LinesRaiseIff` | webapp/backend/pipeline/legacy_import.py:282-352 | reading a file stops exactly when one of its lines raises in the store the file starts from: what earlier lines write never decides it |
| `ArtifactImport.ImportSucceedsAndRepeats` | webapp/backend/pipeline/legacy_import.py:311-376 | an import succeeds exactly when no file not yet in the ledger holds a line that raises, the second file judged in the store the first leaves; a second import of the same files then changes nothing and returns the same summaries |
| `ArtifactImport.OverflowStopsTheImport` | webapp/backend/pipeline/legacy_import.py:256-279 | a first-seen text that passes the check and overflows in UTC stops the whole import once its posting is found |
| `LegacyImporter.Connection.Archive` | webapp/backend/pipeline/legacy_import.py:49-63 | INSERT OR IGNORE into the archive: the first row under a key stays |
| `LegacyImporter.Connection.InsertEvidence` | webapp/backend/pipeline/legacy_import.py:77-93 | evidence is inserted once; a payload already owned by another posting is reported and left alone |
| `LegacyImporter.Connection.LineageCandidates` | webapp/backend/pipeline/legacy_import.py:183-212 | the set of sinks of the seeds, empty as soon as one seed runs into a cycle |
| `LegacyImporter.Connection.ImportResolution` | webapp/backend/pipeline/legacy_import.py:120-180 | it raises exactly when a usable url cannot be bound; otherwise the new tables and the bucket are those of the resolution step, which `LineBuckets.ResolutionBucket` tells from the aliases, chains and evidence before the line |
| `LegacyImporter.Connection.ImportPair` | webapp/backend/pipeline/legacy_import.py:138-180 | the inserts for one pair of postings: same sinks, own redirect, conflicting or cyclic chains, and the union edge |
| `LegacyImporter.Connection.ImportSeen` | webapp/backend/pipeline/legacy_import.py:240-279 | it raises exactly when an url cannot be bound or a date overflows for a found posting; otherwise the new tables and the bucket are those of the first-seen step |
| `LegacyImporter.Connection.ImportLine` | webapp/backend/pipeline/legacy_import.py:282-295 | a parsed line goes to the step of its artifact, a malformed one to the archive, and one whose parsing fails otherwise raises |
| `LegacyImporter.Connection.ImportLines` | webapp/backend/pipeline/legacy_import.py:344-352 | the loop over the lines of a file computes the fold of the line steps with its counters, up to the first line that raises |
| `LegacyImporter.Connection.ImportFile` | webapp/backend/pipeline/legacy_import.py:325-372 | one artifact with its ledger row, or the error that stops the import |
| `LegacyImporter.Connection.ImportArtifacts` | webapp/backend/pipeline/legacy_import.py:311-376 | both artifacts in one transaction: all of it or, on any error, the tables as they were |
| `LineBuckets.ResolutionBucket` | webapp/backend/pipeline/legacy_import.py:120-180 | which bucket a resolution line gets: malformed without usable urls; archived, under its reason, exactly when a url has not exactly one candidate, a chain meets a cycle, the canonical sink is the aggregator posting itself and another than the canonical one, the aggregator redirects to another sink, or the payload belongs to another posting; otherwise mapped exactly when the evidence or the link is new, and a duplicate when both were there |
| `LineBuckets.SightingBucket` | webapp/backend/pipeline/legacy_import.py:183-279 | which bucket a first-seen line gets, by the lineages its url and key lead to, and that it moves the instant only to an earlier one or replaces an unreadable one |
| `LineBuckets.NoObjectBucket` | webapp/backend/pipeline/legacy_import.py:282-295 | a line that is no JSON or no object is malformed under that reason |
| `LineBuckets.RecordRaisesIff` | webapp/backend/pipeline/legacy_import.py:120-279 | a record raises exactly when a url that is looked up cannot be bound, or an instant that is compared is beyond the range of UTC |
| `LineBuckets.CountsAreBuckets` | webapp/backend/pipeline/legacy_import.py:344-362 | the counts of a file are how many of its lines ended in each bucket |
| `Audit.ArchiveIndex` | webapp/backend/pipeline/audit.py:103-107 | the index holds, artifact by artifact, how often each archived row occurs |
| `Audit.CountAccounted` | webapp/backend/pipeline/audit.py:110-117 | the count is the size of the multiset intersection of keys and archive rows |
| `Audit.AllAccountedIff` | webapp/backend/pipeline/audit.py:110-117 | every key is accounted for exactly when the archive holds it at least as often as it is asked for |
| `Audit.MisdirectedIff` | webapp/backend/pipeline/audit.py:368-387 | a mapped row is misdirected unless its seen key has one posting and that is the row's |
| `Audit.EachUnmappedOnce` | webapp/backend/pipeline/audit.py:368-387 | an archive id is looked for once for every legacy row without a posting |
| `Audit.StateEventConservation` | webapp/backend/pipeline/audit.py:368-387 | rows split into mapped and unmapped; nothing is left unexplained exactly when all unmapped rows are archived and every mapped row has its seen key's one posting |
| `TodayQueue.QueueIgnoresOrder` | webapp/backend/ranking.py:283-436 | with distinct urls every permutation of the jobs gives the same queue, exclusions and counts |
| `TodayQueue.QueueWithinCaps` | webapp/backend/ranking.py:360-408 | whatever the jobs, the queue respects the slot cap, the cap per company and the cap on uncertain jobs |
| `TodayQueue.Conservation` | webapp/backend/ranking.py:296-436 | queued plus counted never exceeds the jobs, and equals them exactly when no two bank rows share a url that was decided; the theorems below tell this from the jobs |
| `QueueAccounts.AccountedForEveryCap` | webapp/backend/ranking.py:296-436 | queued plus counted is the number of jobs for every slot cap exactly when no two jobs that pass the gate share a url; with more slots than jobs it fails as soon as two do |
| `QueueAccounts.AccountedWhileThereIsRoom` | webapp/backend/ranking.py:410-429 | in a queue with a free slot the accounting holds exactly for distinct eligible urls |
| `QueueAccounts.BankDistinctIff` | webapp/backend/ranking.py:304-359 | sorting and gating keep how often each eligible job occurs, so the bank has distinct urls exactly when the eligible jobs have |
| `TodayQueue.DistinctConserved` | webapp/backend/ranking.py:296-436 | with distinct urls queued plus counted is the number of jobs considered |
| `TodayQueue.TwinsLoseRows` | webapp/backend/ranking.py:420-429 | the overflow count loses a row for every bank row that repeats a decided url |
| `QueueVerdicts.EveryJobOnce` | webapp/backend/ranking.py:296-436 | with distinct urls each job is queued or charged to exactly one reason, the counts are the charges, and every charge still holds of the finished queue |
| `QueueVerdicts.QueueIsMaximal` | webapp/backend/ranking.py:360-418 | no eligible job left out could be added without breaking the slot, company or uncertainty cap |
| `QueueVerdicts.QueueHoldsEligible` | webapp/backend/ranking.py:304-319 | the queue holds each url once and only jobs that pass the gate |
| `QueueVerdicts.UndecidedMeansFull` | webapp/backend/ranking.py:410-429 | a candidate the lanes never decided means that the queue was full |
| `QueueVerdicts.EmptyUrlsLoseAJob` | webapp/backend/canonical_reads.py:771 | two eligible postings with the empty url: one is queued and the other is counted nowhere |
| `QueueComposer.Composer.GateAll` | webapp/backend/ranking.py:304-319 | the gate loop counts each failing job under its first failing check and keeps the others in order |
| `QueueComposer.Composer.TryPush` | webapp/backend/ranking.py:360-408 | one attempt to queue a candidate, with its running company and uncertainty counters, is the greedy step |
| `QueueComposer.Composer.DrawLanes` | webapp/backend/ranking.py:410-418 | drawing from the lanes in turn is the greedy fold over their bank-first interleaving |
| `QueueComposer.Composer.CountOverflow` | webapp/backend/ranking.py:420-429 | bank rows never decided are charged to the daily cap |
| `QueueComposer.BuildQueue` | webapp/backend/ranking.py:283-436 | the imperative `build_queue` returns exactly the board the specification composes; `QueueChoice` and `QueueDetails` tell that board from the fields of the jobs |
| `QueueOrder.GateInFields` | webapp/backend/ranking.py:160-250 | in the jobs' fields: who is offered at all, and under which first failing check the others are counted |
| `QueueOrder.OddsHalves` | webapp/backend/ranking.py:102-114 | the combined odds fall into match and competition at the first separator, and into nothing without one |
| `QueueOrder.CapsInFields` | webapp/backend/ranking.py:193-267 | what counts as the same company and as uncertain, and how many uncertain rows a queue of any size may hold |
| `QueueOrder.BankKeyMeans` | webapp/backend/ranking.py:322-338 | the bank lane's order: lower competition first, then the better match, then fresh before aging or unknown before stale, scored before unscored and higher scores first, higher tiers, and the url |
| `QueueOrder.AimKeyMeans` | webapp/backend/ranking.py:340-351 | the aim lane's order: higher tiers first, then the better pair of bands, freshness, score and the url |
| `QueueChoice.BankLane` | webapp/backend/ranking.py:328-339 | the bank lane holds the jobs offered, each before all that its order puts behind it |
| `QueueChoice.AimLane` | webapp/backend/ranking.py:340-359 | the aim lane holds those of tier 4 and 5 in its own order |
| `QueueChoice.EntriesInTurn` | webapp/backend/ranking.py:360-418 | the queue's entries come from the two lanes in turns, bank first, numbered from 1, each with its place in its lane by the fields of the jobs |
| `QueueChoice.TakenAtFirstTurn` | webapp/backend/ranking.py:360-418 | a job offered is decided at its first turn: it is taken exactly when the entries before it leave a slot, room for its company and, if it is uncertain, room for an uncertain one |
| `QueueDetails.RowInFields` | webapp/backend/ranking.py:160-267 | age, basis, freshness and uncertainty flags of a row, from its fields |
| `QueueDetails.DetailsOfTheQueue` | webapp/backend/ranking.py:270-281 | each left-out row that is shown has the detail of its reason; all stale rows and all that a cap kept out are shown, of those beyond the last slot as many as there are slots, of the others none, in this order |
| `QueueDetails.NextInBankOrder` | webapp/backend/ranking.py:420-429 | the rows shown as next are the first undecided ones of the bank lane, in its order |
| `Sweep.NextKeepsInv` | sweep.py:115-156 | a `--next`, dead or alive, keeps the history: a step is done exactly when it succeeded or was skipped, was skipped only after two starts, recorded starts never exceed two for a step other than `tests`, and if every call returned, nothing else started before `tests` exited 0 |
| `Sweep.SkipKeepsInv` | sweep.py:108-113 | skipping a step that was started twice, and did not succeed if every call returned, keeps the same facts |
| `Sweep.StateFile.Next` | sweep.py:115-156 | the table, the marker lines seen and the return code of one call, for a child that may die before, during or after its step |
| `Sweep.StateFile.RunStep` | sweep.py:118-154 | a step that was started is recorded with its return code unless the call died before saving |
| `Sweep.StateFile.Skip` | sweep.py:108-113 | a confirmed skip marks the step done and nothing else; an unknown name changes nothing |
| `Sweep.StateFile.Reset` | sweep.py:102-103 | a confirmed reset leaves an empty table |
| `SweepRunner.FinishedCall` | webapp/backend/sweeprunner.py:374-446 | a call that returned 0 finished the step it named, or names it again as next |
| `SweepRunner.DeadCall` | webapp/backend/sweeprunner.py:374-446 | a call that died left every step but its own as it was |
| `SweepRunner.TurnProgress` | webapp/backend/sweeprunner.py:337-463 | each turn of the loop finishes or skips a pending step or uses up one more of the tries of a step |
| `SweepRunner.Runner.CappedStep` | webapp/backend/sweeprunner.py:190-206 | it finds the first record of the file that is not done and has reached the attempt cap, if there is one |
| `SweepRunner.Runner.SkipStuck` | webapp/backend/sweeprunner.py:345-369 | it is only called for a step started at least twice since the last reset, and only a confirmed skip lets the run go on |
| `SweepRunner.Runner.SkipOrGoOn` | webapp/backend/sweeprunner.py:443-457 | below the cap, or for a step that is finished, the loop goes on; at the cap the step is skipped, which its two starts allow |
| `SweepRunner.AnswerMeans` | webapp/backend/sweeprunner.py:380-440 | what an answer that ends the run says: failed fixtures mean that the tests' last execution failed, a return code other than 0 or a missing marker that the call did not come back |
| `SweepRunner.UnderwayByCall` | webapp/backend/sweeprunner.py:346-431 | after the capped steps are skipped, a run that finds something pending found it pending and not capped when it began; one that finds nothing began with done and capped steps only |
| `SweepRunner.Runner.Advance` | webapp/backend/sweeprunner.py:374-463 | one call of `--next` and the decision on it: a terminal event, all done, or progress in the loop's measure |
| `SweepRunner.Runner.RunFull` | webapp/backend/sweeprunner.py:337-463 | the loop terminates by reset still available, pending steps and untried steps, without the wall clock; completing means that nothing is pending and at least one step ran, after a reset exactly when the run began with done and capped steps only; it ends from outside exactly when something came from outside, and every other ending says what the sweep did |
| `SweepRunner.Runner.Run` | webapp/backend/sweeprunner.py:209-270 | every run ends with exactly one terminal event, and none exactly when a shutdown cancelled its task; a capped record of a step that no longer exists, alone or among others, lets no run start a step or complete, and without one a failed skip means an unconfirmed skip of a known step |
| `SweepRunner.KnownAndUnknownBlock` | webapp/backend/sweeprunner.py:345-369 | a table with a known and an unknown capped record is blocked, and still is once the known step has been skipped |
| `SweepRunner.Restarts` | webapp/backend/sweeprunner.py:174-206 | over any number of runs of the runner: at most two recorded starts for a step other than `tests`, none before `tests` passed if every call returned, and a skip only of steps started twice that had not succeeded if every call returned |
| `SweepEvents.Broadcaster.Emit` | webapp/backend/sweeprunner.py:97-116 | every subscriber that keeps up gets the stamped frame, one whose queue is full is cut off, and the counter moves with exactly the terminal events |
| `SweepEvents.Broadcaster.Subscribe` | webapp/backend/sweeprunner.py:140-146 | a new subscriber gets the counter of this very moment and every later frame |
| `SweepEvents.Broadcaster.Next` | webapp/backend/sweeprunner.py:530-547 | a stream hands out its queue in order and ends with a bye once it was cut off |
| `SweepEvents.Broadcaster.NothingMissed` | webapp/backend/sweeprunner.py:47-56 | a subscriber that was not cut off and has drained its queue has seen every frame since it joined |
| `SweepEvents.CountersTellWhatWasMissed` | webapp/backend/sweeprunner.py:91-95 | the difference of two frames' counters is the number of runs that ended between them, seen or not |
| `RunSupervision.EveryInterleaving` | webapp/backend/runservice.py:750-851 | the invariants below hold after every interleaving of admissions, supervisor turns, worker steps, cancels and lost supervisors |
| `RunVerdicts.OneUnsettledPerGroup` | webapp/backend/runservice.py:479-491 | at most one unsettled run exists per exclusion group, and it is in the active table |
| `RunVerdicts.SettledRunsLeave` | webapp/backend/runservice.py:844-850 | a run is in the active table exactly while it is unsettled |
| `RunVerdicts.AtMostOneLateCommit` | webapp/backend/runservice.py:984-1028 | while its supervisor lives, at most one more graph operation of a run commits after a cancel was accepted |
| `RunVerdicts.SettledOutcome` | webapp/backend/runservice.py:812-834 | a run settles as cancelled exactly when a cancel was accepted before its outcome was computed, or the fetch itself was cancelled |
| `RunHistories.OutcomeFromHistory` | webapp/backend/runservice.py:812-834 | a run's outcome from its events alone: cancelled exactly if a cancel was accepted while the outcome was open or the fetch was cancelled; otherwise degraded exactly if enrichment ended in a failure or an operation failed; otherwise as its fetch settled |
| `RunHistories.CommittedInOrder` | webapp/backend/runservice.py:1030-1121 | in every history the thread commits the three opening operations, then each page it found once, then the close, and is nowhere else |
| `RunHistories.ClosedPass` | webapp/backend/runservice.py:1030-1121 | a closed pass committed the opening operations, every page it found, and the close, once each and in this order |
| `RunHistories.LeftAloneItSettles` | webapp/backend/runservice.py:750-851 | from wherever a run is, some continuation settles it with an outcome and its supervisor alive |
| `RunAdmission.AdmittedIff` | webapp/backend/runservice.py:471-492 | a run is let in exactly when its uid is new, the legacy runner is not said to run, and every run of its lane has settled; daily and full-direct runs share a lane, aggregator runs have their own |
| `RunAdmission.CancelTakenIff` | webapp/backend/runservice.py:679-718 | a cancel is accepted exactly while its run has not settled, and raises the flag |
| `RunAdmission.CancelStopsEnrichment` | webapp/backend/runservice.py:679-692 | enrichment ends as cancelled only if a cancel found it running; it may then also still end by itself |
| `RunAdmission.StagedIff` | webapp/backend/runservice.py:771-811 | of the runs that end without a cancel, exactly the daily and full-direct ones whose fetch succeeded or partly did started enrichment and scoring |
| `RunVerdicts.PlainMeansAllStagesRan` | webapp/backend/runservice.py:812-834 | a staged run that settles as its fetch did ran enrichment and scoring to the end and closed its pass |
| `RunVerdicts.StagesNeedALicence` | webapp/backend/runservice.py:772-811 | no stage starts after a failed or cancelled fetch, or for the kinds without stages |
| `RunVerdicts.ClosePassNeverCommits` | webapp/backend/runservice.py:1103-1121 | if the flag is up before the check in front of the close, the pass does not close as long as its supervisor lives |
| `RunVerdicts.ScoringNeverStarts` | webapp/backend/runservice.py:790-811 | a cancel that is up at the scoring boundary keeps scoring from ever starting |
| `RunVerdicts.EnrichmentNeverStarts` | webapp/backend/runservice.py:772-789 | a cancel accepted before the fetch settles keeps enrichment from ever starting |
| `RunVerdicts.CancelDecidesOutcome` | webapp/backend/runservice.py:679-692 | a cancel accepted before the outcome is computed decides it in every continuation |
| `RunVerdicts.CancelDuringSettledAppend` | webapp/backend/runservice.py:812-848 | the window is real: a cancel accepted while the settled event is appended is not in the outcome |
| `RunVerdicts.CancelDuringEnrichmentStart` | webapp/backend/runservice.py:872-878 | the window is real: a cancel that lands while the started event is appended does not stop enrichment |
| `RunVerdicts.LostSupervisorLosesTheCancel` | webapp/backend/runservice.py:844-850 | when the supervisor is lost, the worker no longer sees the flag and two operations commit after the cancel |
| `LostRuns.CloseAfterCancel` | webapp/backend/runservice.py:844-850 | with supervisors that may be lost, a reachable run with the flag up can still close its pass exactly when it has, or its thread is at work, or the supervisor is past its last look at the flag before starting it |
| `LostRuns.SecondLateCommit` | webapp/backend/runservice.py:984-1028 | and a second operation can commit after the cancel exactly when two have, or the thread has that many left where it stands, or scoring is about to start |
| `LostRuns.AfterTheLoss` | webapp/backend/runservice.py:844-850 | for a run whose supervisor is lost the place of its thread alone decides both |
| `LostRuns.LostSupervisorClosesThePass` | webapp/backend/runservice.py:1103-1121 | the loss is real: a flag raised before the first operation, a lost supervisor, four late commits and a closed pass |
| `GraphPages.CutBeforeMerging` | webapp/backend/sources/graph.py:428-431 | cutting the dirty list and the invalidations to the limit before merging them gives the page of the merged whole lists |
| `GraphPass.Pass.SelectWork` | webapp/backend/sources/graph.py:405-431 | in either mode a page is the first `limit` ids beyond the cursor of the work list, ascending: of the corpus in full mode, of the dirty postings and the open invalidations in incremental mode |
| `GraphPass.Pass.CommitOp` | webapp/backend/runservice.py:988-1028 | an operation, its events and its numbers are stored together, and the bell rung, or the database, the log and the bell are as they were; only a close consumes invalidations |
| `GraphPass.Pass.ScorePages` | webapp/backend/runservice.py:1074-1100 | whatever other connections commit meanwhile, the pages ascend without repeats, hold every posting that was work all along and none that never was, and their reports are summed |
| `GraphPass.Pass.Run` | webapp/backend/runservice.py:1030-1121 | a pass that stops committed a beginning of its operations and consumed no invalidation; one that returns closed with the sums of its pages, listing each scored posting once, consumed the open invalidations of those postings, in full mode all, and answered exactly those opened before their posting was scored |
| `GraphPass.TotalsAddUp` | webapp/backend/runservice.py:1083-1100 | the totals of a pass are the sums of its pages' reports, column by column |
| `GraphPass.WorkInWords` | webapp/backend/sources/graph.py:405-431 | a full pass works on the corpus, an incremental one on what is dirty or has an open invalidation |
| `GraphPass.NothingLostIff` | webapp/backend/sources/graph.py:655-684 | a pass no one interfered with answers all it consumes exactly when it was incremental or every open invalidation was of a posting with content |
| `GraphPass.SurvivorLost` | webapp/backend/sources/graph.py:679-683 | a concrete table: every undisturbed full pass consumes the invalidation of a posting without content of its own and does not score it, though it is work for an incremental one |
| `GraphPass.LateRowLost` | webapp/backend/sources/graph.py:679-683 | an invalidation opened between the page of its posting and the close is consumed unanswered |
| `RunEvents.Connection.NextEventSequence` | webapp/backend/sources/runstore.py:514-518 | the next number of a run is the count of its events |
| `RunEvents.Connection.CommitEvents` | webapp/backend/runservice.py:1003-1021 | an operation's events take consecutive numbers of their own runs, or none is stored |
| `RunEvents.RunsAreIncreasing` | webapp/backend/sources/runstore.py:521-545 | each run's events are numbered 0, 1, 2, ... in the order they are stored, whoever commits them |
| `EventStream.Fanout.Subscribe` | webapp/backend/runservice.py:266-269 | a subscription adds that queue to that run and touches no pending token |
| `EventStream.Fanout.Unsubscribe` | webapp/backend/runservice.py:271-277 | unsubscribing removes that queue only and leaves no empty entry behind |
| `EventStream.Fanout.Publish` | webapp/backend/runservice.py:279-284 | every subscriber of the run holds a token afterwards and nobody else is touched |
| `EventStream.Fanout.Take` | webapp/backend/routers/runsapi.py:281-285 | a reader takes its own token and nobody else's |
| `EventStream.EveryInterleaving` | webapp/backend/runservice.py:1138-1239 | order, page, token and sampling invariants hold in every interleaving of commits, doorbells and reader steps |
| `EventStream.DeliveredExactlyOnce` | webapp/backend/routers/runsapi.py:236-289 | what the reader has sent is exactly the rows from its start to its cursor, each once, in sequence order |
| `EventStream.NeverParkedOnARungRow` | webapp/backend/routers/runsapi.py:236-289 | a reader that waits with no token has delivered every row a doorbell was rung for |
| `EventStream.CleanClose` | webapp/backend/routers/runsapi.py:258-289 | a stream closed quietly because the run was over had delivered every row the run left |
| `EventStream.QuietCloseMeansSettled` | webapp/backend/routers/runsapi.py:258-289 | a stream never closes quietly on a run that is still active |
| `StreamCloses.ClosedAtSettling` | webapp/backend/routers/runsapi.py:274-278 | over every interleaving a stream is closed as settled exactly when the last row it sent settles the run, and no row sent before does |
| `StreamCloses.SettledCloseSentAll` | webapp/backend/routers/runsapi.py:258-278 | such a stream has sent every row past its start up to the first settling one, and no other |
| `StreamCloses.LeftAloneItSendsAll` | webapp/backend/routers/runsapi.py:258-289 | from wherever it is, a reader on its own sends every row there is, or closes; it needs no heartbeat for that once the last row has been announced |
| `EventStream.ReconnectContinues` | webapp/backend/routers/runsapi.py:210-233 | resuming from the last cursor continues exactly where the first stream stopped |
| `FeatureVector.ValidateWeightTable` | candidate_profile.py:301-310 | a weight table is accepted exactly when its keys are the required ones |
| `FeatureVector.SumEntry` | candidate_profile.py:106-108 | a new entry moves the total by its value when it is a contribution, and not otherwise |
| `FeatureVector.DroppedEntry` | candidate_profile.py:144-161 | leaving an entry out changes the total by its value |
| `FeatureVector.Scorecard.Enter` | rubric.py:604-773 | one rule: its entry, its points and its flag together |
| `Scoring.ScoreLevel` | rubric.py:667-678 | the level rules, and the senior design refusal that comes in the middle of them |
| `Scoring.ScoreStaffTitle` | rubric.py:708-717 | the clamp half way is entered as the change it makes to the running total |
| `Scoring.ScorePay` | rubric.py:718-739 | age, band and low-pay rules, with the band taking precedence |
| `Scoring.ScoreCaps` | rubric.py:753-772 | the four caps in order give the lowest limit the facts set, and record the caps that lowered the tier, the one on old postings always |
| `Scoring.ScoreRow` | rubric.py:604-773 | a blocked row is tier 0 with its first blocker; any other row gets the vector of the rules that apply, the lowest of its limits as tier, and a flag for exactly the flagged rules in the vector; `Tiers` has the numbers |
| `Scoring.VectorReplays` | rubric.py:776-796 | the tier is the lowest of what the vector alone records, so replaying gives it back, for all weights, tier rules and facts |
| `Scoring.ReconstructTier` | rubric.py:776-796 | replay gives 0 for a blocked vector, a key error without a total, and otherwise the lowest recorded limit, in whatever order the caps are taken |
| `Scoring.ScoreAndReplay` | rubric.py:776-796 | scoring any row and replaying the features it left gives the tier it gave, blocked rows included |
| `Scoring.VectorAddsUp` | candidate_profile.py:106-108 | the contributions, the staff clamp's delta among them, add up to the recorded raw score |
| `Scoring.EveryContributionCounts` | candidate_profile.py:144-161 | a vector without one of its contributions still adds up exactly when that contribution was worth nothing |
| `Scoring.VectorIsClosed` | candidate_profile.py:131-168 | a vector is exactly the blocker key with a known code, or inside the closed key set with function match and raw score present |
| `Scoring.TierBounds` | rubric.py:753-772 | a scored tier is at most 5, at least 1 exactly when every cap that applies is, and below the caps for missing descriptions and low functions |
| `Tiers.TierInNumbers` | rubric.py:753-772 | without a cap the tier is 5 for a total of 5 or more, 1 for a total of 1 or less, and the total in between; with caps it is the lowest of that and of the limits that apply |
| `Tiers.LargerTotalNoLowerTier` | rubric.py:753-772 | under the same limits a larger total never gives a lower tier |
| `Tiers.ReplayInNumbers` | rubric.py:776-796 | the same numbers for the replay: the total of the vector on the scale from 1 to 5, or the lowest cap it records |
| `Tiers.LargerTotalNoLowerReplay` | rubric.py:776-796 | with the same recorded caps a larger total never replays to a lower tier |
| `Tiers.ScoreInNumbers` | rubric.py:604-796 | what the scorer and the replay return, in numbers |
| `Tiers.TotalFromFacts` | rubric.py:664-751 | what the rules add to the total: which exclude each other, and that a Principal or Staff title cuts what comes before age, pay, contract and degree |
| `Tiers.FirstRefusal` | rubric.py:614-703 | a posting is refused exactly when one of nine checks refuses it, under the first that does |
| `Tiers.CapsRecorded` | rubric.py:753-772 | a cap is recorded, at its limit, exactly when it applies and all that comes before it is above that limit; the cap on old postings whenever it applies |
| `Tiers.FlagsInWords` | rubric.py:604-773 | a refused posting has its one flag and its code; any other has a flag for each entry of its vector except the family's points, few years, the domains, pay in band and the total |
| `Hireability.Hireability` | rubric.py:393-483 | the vector holds exactly the rules that apply, sums to the score, stays in the closed key set, and its two labels are the most decisive facts |
| `OddsInWords.OddsFromFacts` | rubric.py:393-483 | the odds score as the points of level, years, skills, pay, pool and the two shared rules, and when each label is given, in numbers |
| `Hireability.EveryKeyIsSummed` | candidate_profile.py:170-174 | the rules summed are all the keys an odds vector may have |
| `Hireability.LabelParses` | webapp/backend/ranking.py:102-114 | the queue's parser splits the combined label back into its halves |
| `Hireability.LabelsAreRanked` | webapp/backend/ranking.py:76-99 | the queue ranks every label the scorer gives, "Unscored" last |
| `Hireability.AxesAgree` | rubric.py:423-450 | staffing and degree rules fire on the odds axis exactly when the fit axis recorded them |
| `UserState.EditKeepsLog` | webapp/backend/routers/state.py:83-149 | an edit keeps the log telling the row exactly when it does not mark as applied a row whose date is the empty text |
| `UserState.BlankDateLosesTheReplay` | webapp/backend/routers/state.py:120-137 | the exception: such an edit logs a date that the row does not hold |
| `UserState.NoEventsIffUnchanged` | webapp/backend/events.py:32-51 | no event is logged exactly when every value given is, normalized, the stored one |
| `UserState.UnchangedRowLogsNothing` | webapp/backend/events.py:32-51 | a write that leaves every column as it was adds no tracked-field event |
| `UserState.EditKeepsOwned` | webapp/backend/routers/state.py:107-129 | an edit through an address that resolves keeps every url with the role of its present job |
| `UserState.IngestOwns` | webapp/backend/ingest.py:175-215 | after an ingest a state row's url is that of a present job only of the row's own role, whatever the tables held before |
| `UserState.IngestKeepsColumns` | webapp/backend/ingest.py:175-251 | an ingest changes no column of an existing state row |
| `UserState.IngestKeepsLog` | webapp/backend/ingest.py:219-251 | picks seeded by an ingest are told by the log |
| `UserState.EveryHistory` | webapp/backend/routers/state.py:83-149 | over every sequence of patches, quick actions and ingests without blank dates the log replays to the columns and urls stay owned |
| `UserDatabase.Database.RecordFieldEvents` | webapp/backend/events.py:32-51 | the loop writes one event per changed field, in order, and counts them |
| `UserDatabase.Database.ResolveSeenKey` | webapp/backend/routers/state.py:72-80 | the role of a known address, the job's before the state row's |
| `UserDatabase.Database.ApplyState` | webapp/backend/routers/state.py:83-149 | the upsert and its events are one step of the specification |
| `UserDatabase.Database.PatchState` | webapp/backend/routers/state.py:165-173 | unknown job and invalid status change nothing; otherwise the patch is applied |
| `UserDatabase.Database.Quick` | webapp/backend/routers/state.py:176-200 | an unknown job or action changes nothing; otherwise the action is applied as its patch |
| `UserDatabase.CoercedStorable` | webapp/backend/routers/state.py:98-103 | what the routes let through meets what the log invariant asks of an edit |
| `UserColumns.EditInColumns` | webapp/backend/routers/state.py:83-133 | after an edit each column named in the body holds what the body gave, flags as 0 or 1; the applied date is filled in only for a body that says Applied, names no date, and finds none; every other column, row and job is as it was, and the row has the edit's address |
| `UserColumns.EditInEvents` | webapp/backend/routers/state.py:134-149 | the events of an edit: one for each column it writes whose logged value changes, with both values, in the order of the body, and the reason last |
| `UserColumns.WrittenInTheLog` | webapp/backend/events.py:20-29 | how the log writes a value: absent and empty alike as nothing, flags as 0 or 1 |
| `UserColumns.NewRowColumns` | webapp/backend/routers/state.py:110-112 | what a role without a row starts with |
| `UserColumns.QuickInColumns` | webapp/backend/routers/state.py:176-200 | what each quick action leaves in the columns and in the log: applied, snooze, pass with its reason, star and unstar |
| `IngestOutcome.IngestInWords` | webapp/backend/ingest.py:139-251 | after an ingest: the run's urls are present with the role of their last row and all others absent; each row shows the least present url of its role, gives up one that another role has, or keeps its own; and each role first picked gets an interested, starred row with the pick's notes and the events of that |
| `IngestOutcome.SeedsOf` | webapp/backend/ingest.py:219-251 | a role is seeded exactly when it has no row and some pick is of a present job of it, by the first such pick; nothing is logged of any other role |
| `UserDatabase.Database.IngestRun` | webapp/backend/ingest.py:139-251 | the loops of steps 4, 7 and 8 compute the ingest of the specification |
| `UserDatabase.Database.RefreshUrls` | webapp/backend/ingest.py:188-215 | each state row adopts its present job's least url, gives up a url that another role's present job has, or keeps its own |
| `UserDatabase.Database.SeedPicks` | webapp/backend/ingest.py:219-251 | a pick is seeded once per role without state, with its events |
| `Rekey.BestIsBest` | webapp/backend/migrations.py:949-957 | the surviving row of a role is one no other row of the role beats |
| `Rekey.WinnerLeads` | webapp/backend/migrations.py:949-957 | in the rows' columns: the winner has the most advanced status, of those the latest update, of those the greatest url, none lowest, and is the first of equals |
| `Rekey.LosersCounted` | webapp/backend/migrations.py:1001-1065 | winners and losers are together the whole old table |
| `Rekey.DisplayUrl` | webapp/backend/migrations.py:960-977 | the winner shows a present job's url of its role, drops surrogates and urls another present job has, and keeps any other |
| `Rekey.ArchiveLosers` | webapp/backend/migrations.py:1048-1050 | exactly the rows of a role that are not its winner are archived |
| `Rekey.Migrate` | webapp/backend/migrations.py:1001-1065 | every old row is the live row of its role or archived once, the live one being the most advanced; the row-count error cannot be raised, and urls are owned by their roles afterwards |
| `MigrationRunner.PendingAfter` | webapp/backend/migrations.py:1882-1889 | recording a beginning of the pending migrations leaves the rest pending, in order |
| `MigrationRunner.AttemptsAdd` | webapp/backend/migrations.py:1837-1904 | two attempts, each failing where it may, get as far as one attempt that applied both |
| `MigrationRunner.AdvancedIsValid` | webapp/backend/migrations.py:1891-1903 | as soon as one migration is recorded, the data has passed the check that follows every migration |
| `MigrationRunner.UpgradesConverge` | webapp/backend/migrations.py:1837-1904 | however an upgrade is cut up, once it succeeds the database is that of one uninterrupted run, each transform applied once |
| `MigrationRunner.Connection.RunOne` | webapp/backend/migrations.py:1891-1903 | one migration with its record and the database check, or nothing |
| `MigrationRunner.Connection.RunMigrations` | webapp/backend/migrations.py:1837-1904 | whatever fails, the data is the fold of exactly the recorded versions; success means nothing is pending and lists what was |
| `MigrationRunner.Connection.DryRun` | webapp/backend/migrations.py:1803-1834 | a dry run leaves the connection alone and, when it succeeds, lists exactly what a real run would apply |
| `MigrationRunner.Connection.StampFresh` | webapp/backend/migrations.py:1862-1880 | a fresh database records every version and runs none |
| `MigrationRunner.Connection.RunRepeatedly` | webapp/backend/migrations.py:1837-1904 | after any number of calls, failing anywhere, the data is still the fold of what is recorded |
| `AliasWindows.WindowsTile` | webapp/backend/migrations.py:1360-1361 | a url's windows cover every instant from the first sighting on exactly once, and none before |
| `AliasWindows.PlacedWindows` | webapp/backend/migrations.py:168-169 | an alias insert is ignored exactly when its id is taken, or it is the open one and the url already has an active alias |
| `AliasWindows.EveryWindowInserted` | webapp/backend/migrations.py:1344-1373 | on a table without aliases of these urls every window of every url goes in and no other |
| `AliasWindows.EveryUrlOwnedOnce` | webapp/backend/migrations.py:1344-1373 | for every url and instant: some alias covers it exactly when the url had been seen by then, never two, and exactly the last-started lineage's alias is open |
| `AliasOwners.TimelineInFields` | webapp/backend/migrations.py:1348-1350 | the lineages of a url are placed by first sighting, last sighting, seen key and posting |
| `AliasOwners.OwnersInFields` | webapp/backend/migrations.py:1344-1373 | at any instant a url belongs to the posting of the lineage placed last of those started by then, and its open alias is of the one placed last of all |
| `AliasOwners.SomeLatest` | webapp/backend/migrations.py:1344-1373 | once a url has been seen there is such a lineage |
| `AliasOwners.TieOnRecord` | webapp/backend/migrations.py:1351-1358 | what is put on record: the postings last seen when the lineage placed last was, if there are two or more and the tie is new |
| `AliasWindows.TimelineIgnoresOrder` | webapp/backend/migrations.py:1348-1350 | the windows do not depend on the order lineages are read in |
| `AliasWindows.BackfillIsIdempotent` | webapp/backend/migrations.py:1364-1373 | running the step again changes no alias |
| `AliasWindows.ArchivedTieIsTheLatest` | webapp/backend/migrations.py:1351-1358 | the archived tie is the set sharing the url's latest observation exactly when the lineage that started last was also seen last, or neither sighting is shared |
| `AliasWindows.SharedLatestMissed` | webapp/backend/migrations.py:1351-1358 | two lineages sharing the latest observation go unrecorded when a third started later and ended earlier |
| `AliasBackfill.Connection.Backfill` | webapp/backend/migrations.py:1344-1373 | the grouping, sorting and inserting loops compute the backfill, and from a table without such aliases install every timeline |
| `AliasBackfill.Connection.RecordTie` | webapp/backend/migrations.py:1351-1358 | one archive row per url and shared instant, the first staying |
| `AliasBackfill.UrlsAreTheSighted` | webapp/backend/migrations.py:1344-1346 | every sighted url is handled once |
| `JobIds.RoundTrip` | webapp/backend/models.py:27-33 | a url has an id exactly when it holds no lone surrogate, and decoding the id gives the url back |
| `JobIds.IdsAreDistinct` | webapp/backend/models.py:27-28 | ids are equal exactly when the urls are |
| `JobIds.DecodedIdIsItself` | webapp/backend/models.py:31-33 | a string decodes to a url that has this very string as its id exactly when it is canonical base64url (url digits, no lone digit, no spare bits) and its bytes are UTF-8 |
| `JobIds.CanonicalButNoUrl` | webapp/backend/models.py:31-33 | canonical alone is not enough: "_w" is the byte 255, and decoding it raises |
| `JobIds.DecodingIsLenient` | webapp/backend/models.py:31-33 | decoding alone is not injective: strings that are no ids decode to the url of one |
| `Base64Url.BytesComeBackFromId` | webapp/backend/models.py:27-33 | the base64url half returns the bytes, for every length |
| `Base64Url.StrippingRemovesThePadding` | webapp/backend/models.py:27-33 | stripping takes away exactly the padding, and the length of the rest restores it |
| `Base64Url.DecodedIdIsItself` | webapp/backend/models.py:31-33 | on bytes: a string is the id of what it decodes to exactly when it is canonical |
| `Utf8.DecodedEncoded` | webapp/backend/models.py:28 | decoding the UTF-8 of a text without surrogates gives the text back |
| `Utf8.EncodedDecoded` | webapp/backend/models.py:33 | what strict decoding accepts encodes to the same bytes, so no overlong form, surrogate or cut sequence is accepted |
| `Utf8.WellFormedIff` | webapp/backend/models.py:33 | the accepted byte sequences are exactly the encodings of texts without surrogates |
| `Dedupe.Dedupe` | scraper.py:552-573 | the dictionary loop gives one row per key, the rows of that key merged in order |
| `Dedupe.OneRowPerKey` | scraper.py:555-573 | keys come in first-seen order, each once, and merging keeps the key |
| `Dedupe.MergedUrls` | scraper.py:566-571 | a row's url and alternatives are exactly the urls merged into it with the alternatives of its first row |
| `Dedupe.NoUrlLost` | scraper.py:560-571 | no url is lost exactly when later rows bring no alternatives of their own that are not among those |
| `Dedupe.MergedHasBestSource` | scraper.py:547-550 | the merged row carries a source of the best priority among its rows |
| `Dedupe.MergedFields` | scraper.py:566-570 | a field of the merged row has something in it exactly when one of its rows had, and what one of them had |
| `DedupeColumns.ColumnFrom` | scraper.py:565-570 | every column of a merged row is that of the last row in charge that has it, the first row being in charge until the first direct one comes, or else of the first row that has it |
| `DedupeColumns.DirectOrNot` | scraper.py:547-550 | a source is preferred exactly when it names one of the nine boards, alone or in front of a dash or a colon |
| `DedupeColumns.AlsoSeenOn` | scraper.py:572 | a merge names the one of its two sources that the merged row does not carry |
| `DedupeColumns.SameIdentity` | scraper.py:555-557 | rows are merged when company, title and city agree once normalized |
| `Dedupe.DedupeIsIdempotent` | scraper.py:552-573 | deduping a deduped list gives it back unchanged |

## Left out

- RunSupervision.EveryInterleaving: the scheduler, the writer and the conflict rules of the legacy runner are seen only through their results; `aclose` and `wait` add no step of their own.
- RunVerdicts.AtMostOneLateCommit: speaks of runs whose supervisor lives; LostRuns has the others.
- RunVerdicts.ClosePassNeverCommits: speaks of runs whose supervisor lives; LostRuns has the others.
- EventStream.EveryInterleaving: `Last-Event-ID` parsing, heartbeats as text and SSE framing are not modelled, only where the reader stands.
- GraphPass.Pass.Run: what the operations write beyond invalidations, the mode decision, the fields of the close summary other than the totals, and callbacks that raise after a commit; postings that appear meanwhile come from a finite set given beforehand, without which the page loop might never end.
- SweepRunner.Runner.RunFull: the quick refresh and the ingest it ends with are not modelled, nor how an external sweep is noticed.
- SweepEvents.Broadcaster.Next: heartbeats, the stream's deadline and the fields of a sync frame other than its counter.
- Sweep.StateFile.Next: a state file that cannot be read, timings and the output other than its marker lines.
- Scoring.ScoreRow: the `why` text, the order of the flags and the flags for salaries found in or missing descriptions, and the salary fields the scorer writes back; pattern matching and number parsing are inputs.
- Hireability.Hireability: the `why` text; skill counting is an input.
- UserState.EveryHistory: the routes for companies and review, deletions, and the backfill of earlier migrations, which does not replay notes.
- UserDatabase.Database.IngestRun: descriptions, history snapshots, run rows and settings of an ingest.
- FeatureVector.ValidateWeightTable: the check that each weight is an integer; weights are integers by type.
- ArtifactImport.LineOutcome: the JSON text of payloads; two lines with the same raw content at the same place are the same archive row. Payloads nested so deeply that they parse but cannot be written again, and running out of memory, are left out.
- LegacyImporter.Connection.ImportArtifacts: file reading and the summary's timestamps.
- Rekey.ArchiveLosers: the tombstone event of each archived row.
- Rekey.Migrate: the tombstone events, and the choice among several present jobs of one role, which the source leaves to the query.
- MigrationRunner.Connection.RunMigrations: what the other migrations do, backups and the schema check are parameters.
- AliasWindows.EveryUrlOwnedOnce: the rest of migration 11: postings, versions, memberships and profile rows.
- Dedupe.Dedupe: `also_seen_on` keeps only the last merge's other source, as in the source; rows are values, so that the source's dictionaries are updated in place does not show.
- TodayQueue.QueueIgnoresOrder: the evidence texts of exclusions beyond their numbers, and a company name that happens to start with the marker for a missing one.
- Calibration, outcome analytics, source adapters, scrapers, description fetching, reviews by language models, the API's transport and the frontend: unseen services, floating point, or counting that would only add easy members.
