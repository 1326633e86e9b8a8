# Tuntu: a verified model of the download control plane

Tuntu discovers wanted items, searches candidate magnets for them, judges and ranks the candidates, and
submits the accepted ones to a CloudDrive2 client whose replies it does not control. This project models
that core in Dafny and proves what it keeps: over every run, every store, every remote reply.

The model follows the program file by file. State that the program updates step by step is a class with the
same fields, and each of its methods is proved equal to a function of the old state; the theorems are about
those functions. Values and expressions are datatypes and functions. Laws beside the main functions say what
these compute in other terms: by membership, by cases, on segments, digits and titles.

- `DownloadState`, `Completion`, `Store`, `Lifecycle`, `Submission`, `Fallback`, `Runs`: the task state machine,
  completion by stable files, the tables with their unique constraints, the operations on one task, the
  callers of a submission, the fallback loop of one item, and a whole run with its statistics.
- `Polling`, `Attempts`: what every poll and every attempt of the loop does, case by case, in terms of what the
  client and the listings said.
- `History`, `Operations`, `Stutter`: all sequences of transactions over one database; the services' operations
  as such sequences; the deduplicating poller against one that records everything.
- `Interleaving`, `Conflict`, `Contention`: any number of fallback loops side by side, one transaction at a time;
  how two of them meet; when a poll raises or is refused, and where the constraints do not reach.
- `Evidence`, `Candidates`, `Discovery`, `Grouping`, `Ordering`: merging, rules, ranking and selection, and why the
  order in which sources answer is immaterial; the second aggregate over stored rows.
- `RemoteTree`, `Directories`, `Paths`: the bounded walk over an untrusted server, creating a directory segment
  by segment, and path arithmetic.
- `Btih`, `Text`, `Magnet`: info hashes in hexadecimal and Base32 (section 6 of RFC 4648), UTF-8 and
  percent-encoding (section 2.1 of RFC 3986), and the magnet parser and printer.
- `HttpClient`, `RunLocks`, `Persistence`: the cached and rate-limited client, the interleavings of concurrent
  runs, and completion states in their stored form.

Remote replies, the clock and the results of sources are parameters or arbitrary values. The atomic steps are
transactions: a claim, the recording of the client's reply to it, a poll, a manual completion. A submission is
two of them, a fallback loop many, and anything else may happen in between. Listings handed to a poll stay
inside the directory they were taken of, which `RemoteTree.TakeSnapshot` proves of every snapshot the client
returns. Case folding is an arbitrary function from strings to strings; where keywords are related to single
titles it works character by character, as Unicode case folding does. Sizes are reals.

## Results that correct an expectation

- A poll can be refused by the database. A task that owns its directory through an earlier signal stops
  blocking it; a confirmed retry takes the directory; a listing that shows nothing owned then hands it back and
  the partial unique index refuses the write. `Contention.PollRefusedInRunsIff` gives the exact condition, and
  `Contention.RefusalIsReachable` reaches it with four ordinary operations on any hash.
- ADR-001 (docs/adr/001-content-identity-and-global-deduplication.md) promises one task per hash across all
  profiles. The code keeps that per generation only. `Store.SecondClaimIff` says exactly when a claim for a held
  hash goes through, at any generation, and `Store.NextClaimIff` that a fallback's claim fails only for a busy
  directory. `Contention.HashClaimedTwice` and `Contention.HashClaimedByFallback` reach two submitted tasks of
  one hash for two contents, from either side of a fallback.
- ADR-003 (docs/adr/003-clouddrive2-completion-semantics.md) wants attention when changes cannot be
  attributed. In the code a poll raises, and leaves the task as it was however late it is, exactly when the task
  owns nothing yet and its own directory path is listed as a file of another size than before
  (`Contention.PollRaisesIff`). `Contention.AttentionIffDue` is the attention rule with that condition and the
  refused polls taken into account; `Contention.RaiseIsReachable` reaches the raise by the first poll after a
  submission.
- A fallback computes its generation before it claims. Alone it never meets a rival. With a second loop beside
  it, its claim is refused exactly when somebody else claimed the content or the hash at that generation in
  between (`Interleaving.ConflictIsForeign`), and `Conflict.FallbackMeetsConflict` plays this out: the refused
  item is linked to nothing but its own rejected task.

## Model

| member | source | states |
|---|---|---|
| DownloadState.TransitionOutcome | src/tuntu/downloads/state.py:20-73 | reliable evidence is refused exactly for leaving a finished task, for going back to submitting, or from downloading to submitted; otherwise only a passed deadline moves a status |
| Completion.SnapshotKeepsSizes | src/tuntu/downloaders/clouddrive.py:179-195 | sorting a listing on construction keeps the size each path resolves to, duplicates included |
| Completion.SizeOfMeans | src/tuntu/downloaders/clouddrive.py:194-195 | a path has a size exactly if some listing of it says so and no later one lists it again |
| Completion.ItemsCanonical | src/tuntu/downloads/completion.py:73-74 | two fingerprints are equal exactly when the two snapshots map the same paths to the same sizes |
| Completion.FirstFingerprintIsRestricted | src/tuntu/downloads/completion.py:56-73 | the first, unrestricted fingerprint equals its restriction to the owners it freezes, and owners exist exactly if changes do |
| Completion.OwnerIsDirectChild | src/tuntu/downloads/completion.py:104-115 | the owner of a path is the direct child of the destination that the path is or lies below |
| Completion.OwnersMean | src/tuntu/downloads/completion.py:59-73 | the owners are exactly the direct children of the destination that a changed file is or lies below |
| Completion.OwnedChangesMean | src/tuntu/downloads/completion.py:42-58 | the owned changes are exactly the files listed with a size other than the baseline's under an owner, each once and in order of path |
| Completion.UnderMeansExtends | src/tuntu/downloads/completion.py:47-50 | for normal paths, being under an owner is extending its segments |
| Completion.TotalSizeConcat | src/tuntu/downloads/completion.py:75 | the total of two lists is the sum of their totals, and that of one file is its size (`TotalSizeSingle`) |
| Completion.ObservationCounts | src/tuntu/downloads/completion.py:75-101 | after any history an observation owns the frozen owners and counts and adds up exactly the owned changes of the newest snapshot |
| Completion.FoldCharacterised | src/tuntu/downloads/completion.py:39-101 | after any history the state holds the frozen owners, the last owned fingerprint and the length of its stable tail |
| Completion.CompletionIffStable | src/tuntu/downloads/completion.py:39-115 | an observation reports completion exactly when the last R snapshots show one change set, some file of it with content, inside the owners frozen at the first change |
| Completion.ObserveRaisesIff | src/tuntu/downloads/completion.py:104-115 | for every listing inside the directory, an observation raises exactly when nothing is owned yet and the directory path itself is listed as a file whose size changed |
| Store.FirstClaim | src/tuntu/db/repository.py:1341-1375 | the conflict found is the earliest task that claims the content or the hash at the generation; none is found only if none exists |
| Store.ClaimOutcome | src/tuntu/db/repository.py:1035-1106 | a claim is refused exactly for a task of the client and generation with the content or the hash, or else for an unfinished, unowned one in the directory; otherwise it appends its row, field by field, and its first event |
| Store.ClaimKeepsValid | src/tuntu/db/models.py:275-301 | a claim keeps every unique constraint, all supersedes links and all logs |
| Store.AppendKeepsValid | src/tuntu/db/repository.py:1108-1158 | appending an event whose status follows the table keeps constraints, links, log numbering and the agreement of log and row |
| Store.NextGenerationIsNext | src/tuntu/db/repository.py:1487-1500 | the next generation is above every task of the client with the content or the hash, and one above some such task, or the first |
| Store.NextGenerationNeverConflicts | src/tuntu/db/repository.py:1487-1500 | a claim at the next generation never raises IdempotencyConflict |
| Store.SecondClaimIff | src/tuntu/db/repository.py:1049-1064 | at any generation, a claim for an already held hash succeeds exactly when no task holds the hash or the content at that generation and none waits in the directory |
| Store.NextClaimIff | src/tuntu/db/repository.py:1487-1500 | a claim at the next generation succeeds exactly when none waits in the directory, whoever holds the hash |
| Store.BusyMeansSameHash | src/tuntu/db/repository.py:1092-1100 | DestinationBusy arises only between tasks of one hash |
| Store.LogsNeverReopen | src/tuntu/downloads/state.py:20-47 | a status history never returns to submitting and never leaves completed or failed |
| Store.SupersessionIsAcyclic | src/tuntu/db/repository.py:1040-1076 | generations fall strictly along every supersedes chain, which is finite and repeats no task |
| Store.Repository.ClaimTask | src/tuntu/db/repository.py:1035-1106 | the transaction leaves the claimed state or, on an error, the old one |
| Store.Repository.Append | src/tuntu/db/repository.py:1108-1158 | the transaction appends exactly one event and updates exactly one row, or changes nothing |
| Store.Repository.Upsert | src/tuntu/db/repository.py:944-958 | a hash is stored once and keeps its row |
| Lifecycle.SubmitOutcome | src/tuntu/downloads/service.py:31-131 | after a successful claim there is exactly one new row, with the deadline, status, error, reference, baseline and completion state the reply calls for, and the log of both, even when the client crashes |
| Lifecycle.SubmitRefusals | src/tuntu/downloads/service.py:44-64 | exactly when a submission is refused before it reaches the client, and with which error |
| Lifecycle.SubmitKeepsValid | src/tuntu/downloads/service.py:31-131 | a submission keeps the store valid and its event is never refused |
| Lifecycle.PollKeepsValid | src/tuntu/downloads/service.py:133-256 | a poll keeps the store valid and never raises InvalidStatusTransition, whatever the client answers |
| Lifecycle.PollRefusedIff | src/tuntu/downloads/service.py:248-255 | a poll that records everything is refused exactly when it hands back a directory another task waits for |
| Lifecycle.ManualKeepsValid | src/tuntu/downloads/service.py:258-278 | manual completion keeps the store valid |
| Lifecycle.ManualOutcome | src/tuntu/downloads/service.py:258-278 | manual completion is refused exactly without confirmation, without a task or for a failed one; otherwise the row and one manual event say completed |
| Lifecycle.DownloadService.SubmitCandidate | src/tuntu/downloads/service.py:31-131 | the method's new state and answer are those of the submission function |
| Lifecycle.DownloadService.PollTask | src/tuntu/downloads/service.py:133-256 | the method's new state and answer are those of the deduplicating poll function |
| Lifecycle.DownloadService.ObserveFiles | src/tuntu/downloads/service.py:217-256 | judging a listing, skipping a repeated uneventful event and recording anything else is the file plan carried out, which `Polling.FilePoll` describes |
| Lifecycle.DownloadService.MoveTo | src/tuntu/downloads/service.py:308-330 | a transition is checked against the table and recorded, or raises and changes nothing |
| Lifecycle.DownloadService.CompleteManually | src/tuntu/downloads/service.py:258-278 | the method's new state and answer are those of the manual completion function |
| Submission.SubmitKeepsSound | src/tuntu/downloads/service.py:31-131 | an honest submission keeps the store sound, and one that supersedes never meets a rival claim |
| Submission.RetryLinksForward | src/tuntu/downloads/service.py:280-306 | a retry is a new task for the same content, hash and directory at a strictly higher generation that supersedes the retried one; its link parses to the stored hash and the store refuses it only for a busy directory |
| Submission.RetryOutcome | src/tuntu/downloads/service.py:280-306 | exactly when a retry is refused unread; otherwise it submits the task's own hash, content and directory at the next generation, superseding the task |
| Submission.SubmitMagnetKeepsSound | src/tuntu/manual.py:80-132 | a magnet submitted by hand keeps the store sound, supersedes exactly the duplicate it was forced over, and a forced one is never a duplicate |
| Submission.MagnetOutcome | src/tuntu/manual.py:80-132 | exactly when a submission by hand is refused; otherwise it stores the link's hash and submits it below the profile's directory, at generation zero or superseding the found holder |
| Submission.SubmitChosenKeepsSound | src/tuntu/manual.py:172-207 | submitting a candidate chosen from a finished run keeps the store sound and supersedes nothing |
| Submission.ChosenOutcome | src/tuntu/manual.py:172-207 | exactly when a chosen candidate is refused; otherwise its hash starts a history at generation zero |
| Submission.ManualService.RetryTask | src/tuntu/downloads/service.py:280-306 | the method's new state and answer are those of the retry function |
| Submission.ManualService.SubmitByHand | src/tuntu/manual.py:80-132 | the method's new state and answer are those of the hand-submission function |
| Fallback.LoopCounts | src/tuntu/runs/service.py:317-391 | every attempt is counted once and has exactly one outcome unless the loop raised; fallbacks are attempts minus one; the result is partial exactly if it was or a trouble counter moved |
| Fallback.LoopVerdict | src/tuntu/runs/service.py:355-391 | the item is reported as what its last task is, and exactly the matching counters move, by exactly one |
| Fallback.LoopTrace | src/tuntu/runs/service.py:317-391 | candidates are tried strictly in ranked order, the next only after an explicit rejection; generations rise, each fallback supersedes the attempt before it; the rows created are those of the attempts in order, at most the last attempt is without one and all rows before it are rejected; with no other claim in between, a conflict can only meet the first attempt and is linked to a task that really holds the content or the hash |
| Attempts.LoopTold | src/tuntu/runs/service.py:317-391 | each attempt meets the store the one before left and asks for its own candidate in the directory of its hash; the next is tried exactly after an explicit rejection; the item is deduplicated exactly for a rival, with the first such task linked, failed for a busy directory or a failed row, raised for an unusable directory or a broken call, and otherwise what its row is |
| Attempts.RowIsAsked | src/tuntu/runs/service.py:322-333 | every row the loop adds is the one its attempt asked for, with the progress its own reply gave it |
| Fallback.RunService.SubmitRanked | src/tuntu/runs/service.py:317-391 | the loop's counters, status and new state are those of the loop function, attempt by attempt |
| Runs.ItemClassified | src/tuntu/runs/service.py:252-273 | an item counts as without candidates, filtered or selected exactly by whether sources found any candidate and the rules accept one |
| Runs.ItemCounts | src/tuntu/runs/service.py:234-391 | how one item moves every counter, also when it raises halfway |
| Runs.ItemSubmits | src/tuntu/runs/service.py:252-391 | an item submits exactly its accepted merged candidates, the best first, through the loop; its counters of sources, candidates and attempts move by what was found, accepted and tried |
| Runs.RowsFollowRanking | src/tuntu/runs/service.py:263-333 | the rows an item adds are for the best accepted candidates in order, with the item's content and the directory of each hash |
| Runs.ItemStores | src/tuntu/runs/service.py:265-316 | without a failure the hashes known afterwards are exactly the known ones and those the sources reported |
| Runs.ForeignItem | src/tuntu/runs/service.py:252-255 | a candidate of another content fails the item before anything is stored |
| Runs.RunConserves | src/tuntu/runs/service.py:175-219 | discovered = processed + failed items; attempts = outcomes up to one a failed item; attempts = selections + fallbacks up to one a failed item; success exactly if no source, item or submission went wrong; failed exactly if nothing could be initialised or discovered |
| Runs.RunItemByItem | src/tuntu/runs/service.py:175-219 | each of the chosen items is processed once, in order, from the store and counters the one before left |
| Runs.RunReaches | src/tuntu/runs/service.py:192-219 | whatever sources and client answer, a run's effect on the database is a sequence of the transactions of History, and the store stays sound |
| Runs.Executor.Rank | src/tuntu/runs/service.py:252-263 | merging, judging and sorting in the loop gives the ranking, or refuses a foreign candidate |
| Runs.Executor.Process | src/tuntu/runs/service.py:234-391 | the method's counters and new state are those of the item function |
| Runs.Executor.ExecuteLocked | src/tuntu/runs/service.py:175-219 | the item loop's statistics, verdict and new state are those of the run function |
| History.OperationKeepsSound | src/tuntu/db/models.py:275-301 | every transaction keeps all constraints, links, logs and task directories |
| History.OperationProgresses | src/tuntu/db/repository.py:1108-1158 | every transaction only extends logs, keeps every task's identity and never changes a completed or failed status |
| History.FailedIsFinal | src/tuntu/db/repository.py:1108-1158 | no transaction touches a failed task or its log again |
| History.StepKeepsConsistent | src/tuntu/downloads/service.py:31-278 | every transaction keeps the link between rows and what was observed, also between a claim and its reply |
| History.RunStaysConsistent | src/tuntu/downloads/service.py:31-306 | in every sequence of transactions, however submissions, loops and polls are interleaved, every store is sound and every row is explained by its observations |
| History.CompletedIsJustified | src/tuntu/downloads/service.py:159-166 | in every run a completed task has a FINISHED signal, a manual confirmation, or R successive listings with one owned, non-empty, positive-size change set |
| History.PollCompletesIff | src/tuntu/downloads/service.py:217-232 | a poll completes a task exactly on FINISHED, or without a signal when its listing is the R-th stable one |
| History.PollFailsIff | src/tuntu/downloads/service.py:167-168 | after its submission a task fails exactly on the client's ERROR signal |
| History.CompletionStateIsTheFold | src/tuntu/db/repository.py:1143-1148 | the stored completion state is always the fold of the successful listings since submission, from the baseline listed at submission |
| Polling.PollOutcome | src/tuntu/downloads/service.py:133-256 | everything a poll of an unfinished task does: when it raises or is refused, and otherwise the row's new status, ownership, error and completion state, the event logged or skipped, and the answer |
| Polling.PollDownloadsIff | src/tuntu/downloads/service.py:168-256 | a poll leaves a task downloading exactly if the client says so, the listing shows unsettled owned content, or it was and the client says INIT or nothing in time |
| Polling.PollSubmitsIff | src/tuntu/downloads/service.py:175-256 | a poll leaves a task submitted exactly if it was submitting or submitted and the client says INIT, or was submitted and the client says nothing in time |
| Polling.DeadlineIsFixed | src/tuntu/downloads/service.py:45-64 | in every run a task's deadline is the time of its claim plus the configured delay, and never moves |
| Operations.SubmitReaches | src/tuntu/downloads/service.py:31-131 | a submission is its claim followed by the recording of the reply |
| Operations.RetryReaches | src/tuntu/downloads/service.py:280-306 | a retry is a sequence of transactions of History |
| Operations.MagnetReaches | src/tuntu/manual.py:80-132 | a submission by hand is a sequence of transactions of History, forced or not |
| Operations.AuthorizedReaches | src/tuntu/manual.py:134-170 | an authorized submission is a sequence of transactions of History, the same ones as an unforced submission by hand |
| Operations.ChosenReaches | src/tuntu/manual.py:172-207 | submitting a chosen candidate is a sequence of transactions of History |
| Operations.LoopReaches | src/tuntu/runs/service.py:317-391 | the fallback loop of an item is its attempts' transactions, one after the other |
| Operations.RunsGoOn | src/tuntu/runs/service.py:317-391 | a run that ends in a store extends to one that ends in every store these operations leave behind, so all that is proved of runs holds there |
| Interleaving.MoveKeepsOrderly | src/tuntu/runs/service.py:317-391 | each step of each loop, and each transaction of anybody else, keeps every loop in order |
| Interleaving.LoopsSideBySide | src/tuntu/runs/service.py:317-391 | in every interleaving of any number of loops, every store is consistent, candidates are tried in ranked order, the next only after an explicit rejection, at rising generations, superseding the attempt before; a loop ends on a rejected task only without a candidate left |
| Interleaving.RejectionNeedsReply | src/tuntu/runs/service.py:355-370 | a task becomes explicitly rejected only by the recording of its own reply |
| Interleaving.ConflictIsForeign | src/tuntu/runs/service.py:334-370 | a fallback's claim meets a conflict exactly when a row added since it computed its generation claims the content or the hash at it, and no such row is its own |
| Conflict.FallbackMeetsConflict | src/tuntu/runs/service.py:334-370 | two loops side by side reach a fallback that is refused as a duplicate and whose item has only its own rejected task to be linked to |
| Stutter.RepeatedAppendIsStutter | src/tuntu/downloads/service.py:238-247 | the append skipped for a repeated uneventful observation would have changed nothing of the task |
| Stutter.DeduplicationIsInvisible | src/tuntu/downloads/service.py:238-256 | the deduplicating poller and one that records everything hold the same tasks after every step of every run |
| Stutter.RecordingRunExists | src/tuntu/downloads/service.py:238-256 | every run of the deduplicating poller has a run of the recording one with the same operations and the same tasks throughout |
| Contention.PollRefusedInRunsIff | src/tuntu/downloads/service.py:248-255 | in every store a run reaches, the poller is refused exactly when it hands back a directory another task waits for |
| Contention.RefusalIsReachable | src/tuntu/db/models.py:290-300 | submit, DOWNLOADING poll, confirmed retry and unchanged listing end in a refused poll, for every hash |
| Contention.RefusalFollows | src/tuntu/downloads/service.py:248-255 | the same from every just submitted task of every sound store |
| Contention.PollRaisesIff | src/tuntu/downloads/service.py:217-256 | a poll raises for an unattributable change exactly when it meets a changed file at the task's own directory path before it owns anything, and then the store is unchanged |
| Contention.PollReturnsIff | src/tuntu/downloads/service.py:133-256 | a poll of an open task returns normally exactly when it neither raises so nor hands back a held directory; otherwise the store is unchanged |
| Contention.AttentionIffDue | src/tuntu/downloads/service.py:133-256 | a poll moves a task to attention exactly when the deadline has passed, the poll learned nothing reliable and hands back no held directory; a poll that raises never does |
| Contention.RaiseIsReachable | src/tuntu/downloads/service.py:217-256 | at any time, the first poll of a just submitted task that finds a file in the directory's place raises and changes nothing |
| Contention.HashClaimedTwice | src/tuntu/runs/service.py:362-370 | a content falls back onto a hash at generation one, another claims it at generation zero: both hold submitted tasks for it, with no link between them |
| Contention.HashClaimedByFallback | src/tuntu/runs/service.py:362-370 | a content holds the hash at generation zero, another falls back onto it at the next one: both hold submitted tasks for it, with no link between them |
| Evidence.AggregateCanonical | src/tuntu/models.py:124-182 | title, search text, sources, size, seeders and truth values depend on the set of evidence only |
| Evidence.MaxTitleIsMax | src/tuntu/models.py:139-143 | the title is the greatest by length, folded text and text |
| Evidence.TitleMeans | src/tuntu/models.py:138-143 | the title is reported, and none reported is longer, or as long and later by folded text and text |
| Evidence.SourcesMean | src/tuntu/models.py:132-136 | the sources are exactly the reported names, each once, in folded order |
| Evidence.SizeMeans | src/tuntu/models.py:154-157 | a size is known exactly if some source reports it and no source another |
| Evidence.AgreedMeans | src/tuntu/models.py:164-170 | a truth value is known exactly if some source reports it and no source the other |
| Evidence.SearchTextMeans | src/tuntu/models.py:145-152 | split at its line breaks, the search text is exactly the distinct non-empty titles, in folded order |
| Evidence.SeedersIsMax | src/tuntu/models.py:159-162 | the seeders are the greatest known count |
| Evidence.StoredAggregateAgrees | src/tuntu/db/repository.py:1730-1762 | the aggregate rebuilt from stored rows has the in-memory title, size, seeders, truth values and set of sources, for every list of evidence |
| Grouping.MergedSpec | src/tuntu/runs/service.py:252-260 | the dictionary holds every key once, with that key's values joined in order of arrival |
| Grouping.AppendMissingOrder | src/tuntu/models.py:184-189 | joined lists keep what was held in front and append what is new in order of arrival |
| Grouping.OrderIsImmaterial | src/tuntu/runs/service.py:252-263 | batches with the same elements, in any order and multiplicity, merge and sort to identical views |
| Candidates.CandidateObject.MergeFrom | src/tuntu/models.py:184-189 | merging appends exactly the missing evidence in order, or refuses a different candidate |
| Candidates.EvaluateRules | src/tuntu/rules.py:43-93 | the method that appends reasons rule by rule computes the evaluation function |
| Candidates.AcceptedIff | src/tuntu/rules.py:43-107 | a candidate is accepted exactly if it meets every configured mode, bound and keyword list, an unknown value meeting no bound |
| Candidates.AcceptedByEvidence | src/tuntu/rules.py:43-107 | acceptance as a condition on what the sources report: agreed values, agreed size, greatest count, and keywords looked for in every title |
| Candidates.FoundInTitle | src/tuntu/rules.py:82-93 | a keyword without a line break is found exactly if some source's title has it, both case-folded |
| Candidates.ReasonsMean | src/tuntu/rules.py:43-107 | the reasons are exactly those that speak against the candidate, in the order of the rules |
| Candidates.MergedBatchMeans | src/tuntu/runs/service.py:252-260 | merging leaves every hash once, with all the evidence reported for it and no other |
| Candidates.RankingIgnoresOrder | src/tuntu/runs/service.py:252-263 | provider order never matters: the ranked hashes, verdicts, reasons and sort keys are identical |
| Candidates.RankedSpec | src/tuntu/selector.py:6-18 | the ranked list is strictly sorted and is exactly the merged candidates, each evaluated |
| Candidates.RankingMeans | src/tuntu/selector.py:6-18 | the ranking is exactly the merged candidates, accepted ones first, then more known seeders, then a smaller known size, then the hash |
| Candidates.SelectedIsUniqueMinimum | src/tuntu/selector.py:21-25 | the selected candidate is the unique minimum of the sort key among all accepted ones, and none is selected only if none is accepted |
| Candidates.SelectedIsBest | src/tuntu/selector.py:6-25 | the selected candidate has the most known seeders of all accepted ones, and the smallest known size among equals |
| Candidates.Collect | src/tuntu/pipeline.py:33-44 | merging source by source gives the same batch, or refuses a foreign candidate |
| Candidates.Discover | src/tuntu/pipeline.py:32-62 | the pipeline returns the same ranking, the same selection and the matching status as the run service |
| Discovery.ItemObject.MergeFrom | src/tuntu/models.py:65-77 | merging appends the missing rankings and keeps the greater title, or refuses a different identity |
| Discovery.MergeItems | src/tuntu/runs/service.py:439-450 | the method computes the first top_n merged items |
| Discovery.MergedItemsMean | src/tuntu/models.py:51-77 | items of one namespace and key, blanks and case aside, become one, with all their rankings and the best of their titles |
| Discovery.TopItemsOrdered | src/tuntu/runs/service.py:448-450 | the chosen items are in order of best rank, then namespace, then key |
| Discovery.DiscoveryOrderIsImmaterial | src/tuntu/runs/service.py:439-450 | identities, best ranks and titles of the top items do not depend on the order of discovery |
| Discovery.TopItemsLead | src/tuntu/runs/service.py:192 | the chosen items are as many merged items as top_n allows, and none left out has a better rank |
| RemoteTree.ReadEntries | src/tuntu/downloaders/clouddrive.py:412-428 | one listing adds exactly its files and directories, or is refused for a stated reason |
| RemoteTree.Walk | src/tuntu/downloaders/clouddrive.py:393-431 | the walk ends for every server; it lists exactly the reachable directories, each once and within the depth limit, and returns exactly their files, at most the limit; every error has its cause in the server |
| RemoteTree.CompleteMeans | src/tuntu/downloaders/clouddrive.py:412-430 | the files of a complete walk are exactly the file entries of the reachable directories, with normal paths and no negative size |
| RemoteTree.AdmittedMeans | src/tuntu/downloaders/clouddrive.py:415-423 | an entry is admitted exactly if its path is one and extends the destination's segments |
| RemoteTree.TakeSnapshot | src/tuntu/downloaders/clouddrive.py:393-431 | the same for any spelling of the path, and every file of the snapshot is the destination or strictly below it |
| RemoteTree.ListingDecreases | src/tuntu/downloaders/clouddrive.py:399-428 | listing a directory lowers the weight of the pending work, however many directories it contains |
| Directories.WithinMeansExtends | src/tuntu/downloaders/clouddrive.py:308-320 | the textual root check holds exactly when the path extends the root's segments, and the rest splits into the added names |
| Directories.Drive.EnsureDestination | src/tuntu/downloaders/clouddrive.py:308-353 | on return every prefix exists as a directory; nothing is removed or changed and nothing is made off the path; every error has its cause |
| Directories.Drive.EnsureFolder | src/tuntu/downloaders/clouddrive.py:333-353 | one pass leaves the folder a directory or fails, each error exactly for its cause, and makes at most that folder |
| Paths.JoinSplit | src/tuntu/downloaders/clouddrive.py:67-70 | joining undoes splitting |
| Paths.SplitJoin | src/tuntu/downloaders/clouddrive.py:67-70 | splitting undoes joining on parts free of the separator |
| Paths.NormalizeOkIff | src/tuntu/downloaders/clouddrive.py:64-71 | accepted are exactly the absolute paths without backslashes and dot segments |
| Paths.NormalizeIdempotent | src/tuntu/downloaders/clouddrive.py:64-71 | normalising is idempotent |
| Paths.NormalizeIdentifies | src/tuntu/downloaders/clouddrive.py:64-71 | two accepted spellings normalise alike exactly when they name the same segments |
| Paths.ResolveDestinationBelowRoot | src/tuntu/downloaders/clouddrive.py:74-85 | the resolved directory exists exactly for valid names, is strictly below the root and keeps the names |
| Paths.TaskDestinationShape | src/tuntu/downloaders/clouddrive.py:88-93 | a task directory is the normal directory followed by the normal hash |
| Paths.TaskDestinationInjective | src/tuntu/downloaders/clouddrive.py:88-93 | task directories coincide exactly for the same normal directory and the same 160 bits |
| Btih.NormalizeKeepsBits | src/tuntu/magnet.py:31-43 | normalising yields 40 lowercase hex digits of the value the input denotes, in hex or Base32 |
| Btih.NormalizeOkIff | src/tuntu/magnet.py:31-43 | accepted are exactly 40 hexadecimal or 32 Base32 characters of the alphabets, spaces around them aside |
| Btih.Base32Alphabet | src/tuntu/magnet.py:37 | a Base32 character stands for its place in the alphabet of section 6 of RFC 4648, either case |
| Btih.HexAlphabet | src/tuntu/magnet.py:33-43 | a hexadecimal character stands for its place in the alphabet, either case, and is written in lower case |
| Btih.NormalizeIdentifiesBits | src/tuntu/magnet.py:31-43 | two accepted inputs normalise alike exactly when they denote the same 160 bits |
| Btih.NormalizeIdempotent | src/tuntu/magnet.py:31-43 | a normal hash normalises to itself |
| Text.DecodeEncode | src/tuntu/magnet.py:28 | UTF-8 decoding undoes encoding |
| Text.EncodeMeans | src/tuntu/magnet.py:28 | the octets of a character are the shortest well-formed ones and hold exactly its bits |
| Text.DecodeOneIff | src/tuntu/magnet.py:54-56 | octets decode to a character exactly if they start with its encoding; all else becomes a replacement |
| Text.QuotedOctet | src/tuntu/magnet.py:28 | unreserved characters are printed as they are, any other octet as a percent sign and two upper-case digits |
| Text.HexAlphabet | src/tuntu/magnet.py:54-56 | digits after a percent sign are read in either case |
| Text.FormRoundTrip | src/tuntu/magnet.py:28-56 | form-decoding undoes form-encoding on every text |
| Magnet.ScanFields | src/tuntu/magnet.py:54-68 | the loop that sorts fields into hashes and parameters computes the two field functions, in order |
| Magnet.QueryRoundTrip | src/tuntu/magnet.py:28-56 | parsing a printed query gives back its pairs in order |
| Magnet.ParsePrintParse | src/tuntu/magnet.py:18-75 | printing and parsing an accepted magnet gives back the same magnet, with parameters in order and other `xt` values kept |
| Magnet.ParseBareLink | src/tuntu/magnet.py:24-27 | a bare link of a normal hash parses to that hash alone |
| Magnet.ParseCanonical | src/tuntu/magnet.py:18-75 | every magnet with a normal hash and any parameters that are not hash fields is printed to a link that parses to it |
| Magnet.AcceptedIff | src/tuntu/magnet.py:46-75 | a link is accepted exactly when it splits, its scheme is `magnet` and its hash fields agree; the first of these that fails is the error |
| Magnet.UrlSplitMeans | src/tuntu/magnet.py:46-52 | the query read is what follows the first question mark up to a fragment, whatever the case of the scheme |
| Magnet.BlanksAreIgnored | src/tuntu/magnet.py:46-52 | line breaks and tabs anywhere, and spaces and controls in front, make no difference |
| Magnet.HashFieldIff | src/tuntu/magnet.py:54-68 | a field carries a hash exactly if it is called `xt` and reads `urn:btih:` and the hash, in any case |
| Magnet.FieldsMean | src/tuntu/magnet.py:54-68 | every field is either a hash field or kept as a parameter |
| Magnet.CommonErrors | src/tuntu/magnet.py:70-75 | a link is refused for its hash fields exactly if there is none, one cannot be read, or two denote different bits |
| Magnet.CommonIff | src/tuntu/magnet.py:70-75 | hash fields agree exactly when there is one and all denote the same 160 bits, which the hash then denotes too |
| HttpClient.BackoffTotal | src/tuntu/providers/http.py:206-216 | the sleeps after n failures add up to backoff times 2^n - 1 |
| HttpClient.RetryableMeans | src/tuntu/providers/http.py:206-219 | what is worth another attempt: a broken connection, or one of six statuses within bounds |
| HttpClient.JudgedMeans | src/tuntu/providers/http.py:206-232 | an answer is handed on exactly if it is within bounds and below 400; each error has its own cause |
| HttpClient.AnswersAreStable | src/tuntu/providers/http.py:124-157 | within a run a key's answer never changes until the run is finished |
| HttpClient.FirstAnswerIsYoung | src/tuntu/providers/http.py:129-149 | a run's first answer for a key was fetched for it, or less than the TTL before it was given |
| HttpClient.Client.RateLimit | src/tuntu/providers/http.py:176-181 | afterwards at least the minimal interval has passed since the last request |
| HttpClient.Client.RequestWithRetry | src/tuntu/providers/http.py:183-232 | at most retries + 1 requests, each at least the minimal interval and the doubled backoff after the one before it; every reply but the last was worth a retry, the last decides the answer; the total backoff is exactly that of the failures; the loop never falls off its end |
| HttpClient.Client.Request | src/tuntu/providers/http.py:113-149 | a cached answer is repeated without a request, a fresh enough one is shared without a request, a fetched one is kept for the run and for one TTL, an error is cached nowhere, and both caches stay explained by the history |
| HttpClient.Client.FinishRun | src/tuntu/providers/http.py:151-157 | finishing a run forgets exactly its answers |
| RunLocks.StepKeepsSafe | src/tuntu/runs/service.py:83-120 | every step of every thread keeps slots, locks, rows and finishes in order |
| RunLocks.MutualExclusion | src/tuntu/runs/service.py:102-120 | under every interleaving at most one thread a profile and at most the configured number execute, no profile has two running rows, finishing finds its row running, and no slot is released too often |
| RunLocks.QuietMeansRestored | src/tuntu/runs/service.py:103-120 | once all threads are outside, every lock and slot is free and every row of the service was finished exactly once |
| RunLocks.TerminalRowsStay | src/tuntu/db/repository.py:479-491 | in every interleaving, a run row that is terminal at some point is the same at every later point |
| RunLocks.StayIsPaid | src/tuntu/runs/service.py:102-120 | in every interleaving, each own step of a thread inside brings it closer to the outside, whatever the others do |
| RunLocks.EveryoneLeaves | src/tuntu/runs/service.py:102-120 | in every interleaving, a thread is outside again after at most five of its own steps |
| RunLocks.UndisturbedCall | src/tuntu/runs/service.py:83-120 | an undisturbed call that may start adds one row, finished once with its own verdict, and gives back lock and slot; any other leaves everything as it was |
| Persistence.SnapshotRoundTrip | src/tuntu/db/repository.py:1534-1550 | a stored snapshot reads back as itself |
| Persistence.StateRoundTrip | src/tuntu/db/repository.py:1552-1578 | a completion state survives storing and reading exactly if it can be constructed at all |
| Persistence.OldStateRoundTrip | src/tuntu/db/repository.py:1566-1578 | a state stored without a directory reads back as one of the root directory |

## Left out

- gRPC, HTTP transport, SQL sessions, migrations, routes, templates, provider parsing and Unicode tables: library plumbing and input formats.
- Settings and profile validation, authentication, redaction, CSV, the scheduler: field checks and set-wide updates that would only add easy members.
- Overlapping operations on one task: `poll`, `complete_manually` and the recording of a reply read a task and append later in a second transaction; each is atomic here. In `Interleaving` a row is not polled or completed by hand while its own client call is running, in `History` a reply is not recorded after that happened.
- Runtime reload: the lock model covers one service instance.
- Rows that never influence a decision: profile and run item references, audit events, error summaries (equal to the codes), update times. `Stutter.DeduplicationIsInvisible` therefore says nothing about update times or the log.
- Rule messages: a reason is its code with its field or keyword, of which the message is a function.
- Merged raw keys and metadata of items: they do depend on discovery order.
- NaN and rounding of sizes, and the width of database integers.
- Row identifiers are positions in the tables, so ties in creation time are ordered by insertion; `find_download_by_btih` may answer any task of the hash.
- Database failures inside the fallback loop: `Runs` lets the store fail after any number of an item's candidates, not between two attempts. `RunLocks` assumes a store that does not fail.
- The per-source statistics rows of a run.
- Address checks of `urlsplit` (bracketed hosts, NFKC): a magnet that fails only those is accepted by the model. The words `magnet`, `xt`, `urn` and `btih` are compared ignoring ASCII case.
- `HttpClient` stamps a request when it is started, as the program does; a delay between the stamp and the network is not part of the model. Cache keys are already in canonical spelling. The client that the program builds follows redirects, so one counted request may be several sends.
- `Directories` assumes an honest listing and that nobody else removes or changes directories meanwhile; a folder may appear although its creation was reported as failed. A success reply to `CreateFolder` always makes the folder here; the program trusts that reply without looking.
- What the client is handed, a canonical link and the task's directory, is not recorded: every reply to it is possible.
