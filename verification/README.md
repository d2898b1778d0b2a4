# Popcon judging, verified

Popcon is an online judge: contestants submit programs, workers run them on test cases, and a ranking is kept
while results come in. This project models its hardest parts and proves what they guarantee.

* **From a judge result to the ranking** (`Types`, `Submissions`, `Evaluation`, `Ranking`, `Pipeline`, `Agreement`,
  `Theorems`, `Transactions`, `Examples`, `Database`, `Standing`). Results of any number of runs, workers and
  dispatchers arrive late, twice or out of order, in two transactions each. The submissions table filters them by
  jid; the ranking table is an index kept up to date cell by cell. Main results: jids strictly increase, stored runs
  never go back (`Theorems.Versions`); each ranking update keeps the cells right if and only if it is harmless
  (`Pipeline.UpdateExact`, `Theorems.AgreementExact`), which the handler can look up in its tables when
  no other result of the problem is on its way (`Pipeline.GuardExact`); at rest the ranking is a view of the submissions table (`Theorems.RankingIsView`), the same
  after every order of deliveries (`Theorems.Confluence`, `Theorems.JidOrderConfluence`); transactions of one
  participant that do not overlap are as good as updates made at once (`Transactions.SerialRun`), and those that do
  are right exactly under two conditions at their writes (`Transactions.WriteCellExact`,
  `Transactions.WriteFoldExact`); and the sorted columns mean the documented order (`Standing.StandingOrder`).
  `Examples` has runs from the start on which each missing guard leaves the ranking wrong for good.
* **The file cache of a worker** (`Downloader`, `SharedCache`): maps under a mutex, downloads that race, lockers,
  open files, a sweeper that deletes files after leaving the mutex. `SharedCache.PinAccounting` gives the exact
  meaning of a counter, `SharedCache.DiskConserved` what is on disk, and `SharedCache.HeldPath` says when the path a
  caller holds is still the cached file.
* **One judge job** (`Judges`, `Consumer`, `JobVerdict`, `Job`): the two judges' case loops, the consumer that turns
  their stream into a verdict and a score, and the goroutines with their pins and exits.
* **The dispatcher** (`Dispatcher`): slots of workers and the shared queue.
* **Files in the store** (`Files`, `Removal`): safe replacement, delayed removal, and a bucket whose keys are
  timestamps compared as bytes.
* **Line endings and small encodings** (`Newline`, `Decimal`, `Codecs`).

## How to read it

Where the program changes state, a class or a method with loops is proved against a specification function
(`Database.DatabaseManager` against `Submissions.Apply`, `Ranking.RankingUpdate` and their neighbours;
`Downloader.PPDownloader` against the cache functions; the judges against `JudgeStream`). Concurrent parts are step
systems over the same specification functions: a state, a `Step`, what is `Enabled`, and `Next`. A run is any
sequence of enabled steps, so a statement about runs is a statement about every interleaving.

"Agrees" takes a parameter: a cell is compared with all delivered reports, or the reports of submissions that were
reset since are forgiven, which is what a rejudge of a whole problem needs: until their new results come, those
reports stand for nothing.

History fields (who dispatched, reported or delivered what; cache hits; leaked files) exist to state the
properties. No step depends on them, with one exception that is the worker's own bookkeeping: a worker reports
only runs that were dispatched to it.

Next to the theorems that speak through a definition (`Fold`, `Terminal`, `ScoreOf`, `QueueKey` and the like) there is
one that says what the definition comes to on the fields of its arguments, in literals (`GeneralByCell`,
`StreamedCase`, `SetCounts`, `SweptExactly`).

## Where the code and its intent differ

* `lib/database/contest_ranking.go:215`: when a rejudge lowers the score of the submission a cell holds, the cell
  moves to the best row of the table but takes the new result's score (`Examples.DemotionExample`).
* `lib/database/submission.go:513-521`: that best row can be a late one, because the query ignores the finish time
  (`Examples.LateDemotionExample`), or one that is being judged, whose own result is then ignored as a duplicate
  (`Examples.SwallowedExample`). `Pipeline.UpdateExact` says exactly when a demotion is right, and
  `Pipeline.DemotionExact` when that can be seen in the table: the row must be on time, judged, and score no more than
  the new result.
* `ppjc/handlerv1.go:400-407`: a result that the submissions table dropped as stale still reaches the ranking
  (`Examples.StaleExample`). The missing guard: such a result, whose row has a newer jid, must not beat a cell that
  holds another submission (`Pipeline.ChoiceGuardExact`, `Pipeline.GuardExact`).
* `lib/database/contest_ranking.go:177`: the lock asked for is lost, because line 328 reads the row with a plain query.
  Two transactions of a participant can read before either writes; then a better result is overwritten
  (`Examples.LostCellExample`), or the folded columns no longer belong to the cells (`Examples.LostFoldExample`).
  A write, of a result that would be harmless by then, is right if and only if choosing again just before it gives the
  same cell but for its penalty (`Transactions.WriteCellExact`)
  and the cells that others changed since the read contribute what they did (`Transactions.WriteFoldExact`).
* `lib/types/contest.go:98-110`: the contest's penalty setting is not used (`Standing.PenaltySettingExact`).
* `ppjudge/downloader.go:70-77`: a cache hit counts once more than it is given back, so a key that was hit is never
  swept (`SharedCache.HitPinsForever`); and a sweep between choosing a path and taking the locker leaves a live
  locker without its file (`SharedCache.LateLockExample`).
* `ppjudge/downloader.go:91-102`: a download that fails after creating its file leaves it on disk for good
  (`SharedCache.DiskConserved`).
* `ppjudge/main.go:434-439`: the job lets its files go without waiting for the consumer, which may still have outputs
  to compare (`Job.LateComparison`); a refusal of the judge and a failed download can both be reported as the
  final result (`Job.TwoFinalResults`).
* `ppjudge/main.go:558-576`: a file that could not be opened is closed all the same; modelled as the outcome
  `Crashed`, which ends the process. `ppjudge/main.go:529`: a memory of -1 is reported as 0, because the division
  truncates (`JobVerdict.ReportIsVerdict`).
* `ppjudge/judge_runCode.go:243`: nobody looks at the error of creating the checker's container, so the judge crashes
  at the first case that needs it, or as it leaves (`Judges.RunCode`).
* `ppjudge/judge_runCode.go:296`: what the checker finds in its copy of the input is the path of the input file, not
  its content.
* `ppweb/utility.go:172-173`: ordinary characters do not clear the reader's flag, so a later line feed can be lost
  (`Newline.LostFeedExample`; `Newline.TrimExact` gives the exact condition).
* `ppweb/utility.go:155-157`: what comes together with an error, as an end of file may, stays in the reader's own
  buffer and is lost (`Newline.TrimNewlineReader.Read`).
* `lib/database/contest_problem.go:39-58`: the empty list of cases comes back as the list of case 0.

## Model

| member | source | states |
|---|---|---|
| Types.WorseIsLater | lib/types/submission.go:6-16 | The statuses in the order of gravity, which is the order of their codes |
| Submissions.StaleFiltering | lib/database/submission.go:523-623 | After any sequence of case and result messages, in any order, the row is what the messages of the largest jid alone make of a row without cases |
| Submissions.RowShowsRun | lib/database/submission.go:523-623 | Then that row shows the run's last word and exactly its finished cases in the order reported, and nothing else of it changed |
| Submissions.LastWord | lib/database/submission.go:523-623 | Field by field: a result shows as it was reported, a case as Judging with zeros, and pid, iid, submit time and used jid stay |
| Submissions.CasesShown | lib/database/submission.go:568-623 | A case is attached if and only if the row had it from the same run or it was reported finished by that run |
| Submissions.RejudgeForgotten | ppweb/contest_each.go:1003-1077 | After a rejudge, once a newer run is heard of, the row is the same as without the rejudge, whatever messages of older runs come in between |
| Submissions.MaximumScore | lib/database/submission.go:513-521 | The row returned is first by score descending, sid ascending among all rows of the participant and problem, late ones included; none exactly if there is no row |
| Evaluation.AccumulateAllScore | lib/types/contest.go:40-46 | The loop over the map gives the int64 sum of the scores whatever the iteration order: any cell's score and the sum of the others |
| Evaluation.AccumulateAllTime | lib/types/contest.go:64-72 | The loop gives the int64 sum of the times of the cells that score: any such cell's time and the sum of the others |
| Evaluation.AccumulateAllPenalty | lib/types/contest.go:80-88 | The loop gives the int64 sum of the penalties of the cells that score: any such cell's penalty and the sum of the others |
| Evaluation.MaximizedTime | lib/types/contest.go:55-63 | The loop gives the latest time of a cell that scores |
| Evaluation.LatestTime | lib/types/contest.go:55-63 | It bounds every scoring cell's time and is attained, or is zero |
| Evaluation.TotalTakesAny | lib/types/contest.go:40-88 | A sum over the cells does not depend on which cell is taken first |
| Evaluation.TotalsByCell | lib/types/contest.go:40-88 | A cell adds its score, and its time and its penalty if it scores, to the exact totals of the other cells |
| Evaluation.GeneralByCell | lib/types/contest.go:40-95 | So the general cell is determined cell by cell, mod 2^64, with the sum of the times for ICPC and the latest one otherwise |
| Evaluation.WrapExact | lib/types/contest.go:40-110 | The int64 value is the one in range that is equal mod 2^64 |
| Evaluation.ValuesExact | lib/types/contest.go:95-110 | The two values for all arguments: time, penalties, or time and a minute per penalty, mod 2^64 |
| Ranking.RankingUpdateFolds | lib/database/contest_ranking.go:187-260 | A ranking update leaves every row's general, score, value1 and value2 equal to evaluating its cells from scratch |
| Ranking.UserAddFolds | lib/database/contest_ranking.go:99-111 | So does joining a contest |
| Ranking.ProblemAddFolds | lib/database/contest_ranking.go:69-82 | So does adding a problem, whose blank cells add nothing |
| Ranking.FirstIsMaximum | lib/database/submission.go:513-521 | The first row is unique, so whichever the query returns is that one |
| Ranking.RankingUpdateFails | lib/database/contest_ranking.go:174-219 | An update fails if and only if the row has no such column, or a demotion finds no submission of the participant; a participant without a row is no error |
| Pipeline.ValidStep | lib/database/submission.go:523-623 | Every step of any dispatcher, worker or manager keeps the version invariant: fresh jids, stored jid at most used jid, cases of the row's own run, reports traceable to on-time rows |
| Pipeline.RankingUpdateEffect | lib/database/contest_ranking.go:167-264 | An update changes one cell, to the chosen one with its penalty recounted, and no other cell or table |
| Pipeline.AgreesKept | ppjc/handlerv1.go:373-415 | Steps other than a ranking update keep every cell the best of the delivered reports |
| Pipeline.ChoiceExact | lib/database/contest_ranking.go:187-230 | Without a demotion, the cell after an update (of a fresh, stale or repeated result) is the best of what is then delivered if and only if the update is harmless |
| Pipeline.DemotedExact | lib/database/contest_ranking.go:207-219 | A demoted cell is right if and only if the row the query returns had its current run delivered with just the new result's score, and no delivered report is ahead of that |
| Pipeline.DemotionExact | lib/database/contest_ranking.go:207-219 | When judged on-time rows show what was delivered, and nothing was delivered for the others (or they are forgiven, and the row returned is none of them), that is so if and only if the row returned is on time, judged, and scores no more than the new result |
| Pipeline.StaleByTable | ppjc/handlerv1.go:373-415 | In every valid state a result older than one delivered has a row with a newer jid than its own |
| Pipeline.ChoiceGuardExact | lib/database/contest_ranking.go:187-230 | Without a demotion, whatever is on its way: an update that passes a guard on the tables keeps the cells in agreement, and only such an update does when its row has not moved on or a newer run was delivered |
| Pipeline.StaleExact | ppjc/handlerv1.go:373-415 | And only such a result, when no other result of the problem is on its way |
| Pipeline.GuardExact | ppjc/handlerv1.go:400-407 | Then an update keeps the cells in agreement if and only if a guard on the tables passes: a result older than its row does not beat another submission's cell, a repeated one repeats its score, and a demotion may fall back on the row the query returns |
| Pipeline.UpdateExact | lib/database/contest_ranking.go:187-230 | In any reachable state whose cells agree with the delivered reports, a ranking update keeps that if and only if it is harmless; with all reports counted, and with those of submissions reset since forgiven |
| Agreement.SoundUpdate | lib/database/contest_ranking.go:167-264 | A careful ranking update keeps agreement, coverage of judged rows and the right penalties |
| Agreement.SoundStep | ppjc/handlerv1.go:373-526 | So does every other step of the pipeline, a second result of a run included: a refusal at any time, also after a reset |
| Agreement.PenaltyUpdated | lib/database/contest_ranking.go:232-242 | After an update every cell whose submissions are at rest carries the recount of its wrong submissions |
| Theorems.Versions | ppjc/handlerv1.go:497-526 | In every run: the jids dispatched for a submission strictly increase, stored jids never decrease and never pass the used jid, a row's cases are of its own run |
| Theorems.FoldsRun | lib/database/contest_ranking.go:244-260 | In every run of updates made at once the folded columns are those of the cells |
| Theorems.AgreementExact | lib/database/contest_ranking.go:187-230 | The cells agree with the delivered reports in every state of any run if and only if every ranking update of the run is harmless, in either sense of agreement |
| Theorems.JidOrderAgrees | lib/database/contest_ranking.go:187-230 | When every submission's results reach the ranking in jid order (or once more) and nothing demotes, every cell is the best delivered report, whatever the arrival order |
| Theorems.JidOrderCareful | ppjc/handlerv1.go:373-415 | Such a run whose sids are ordered, whose cells are there and whose runs repeat themselves is careful |
| Theorems.JidOrderView | lib/database/contest_ranking.go:167-264 | So its cells at rest are the batch cells, penalties included, and its rows are folded |
| Theorems.JidOrderConfluence | ppjc/handlerv1.go:373-415 | Two such runs that delivered the same reports hold the same sid, jid, time and score in every cell |
| Theorems.PenaltyCountsWrong | lib/database/submission.go:498-511 | The count is the number of on-time wrong submissions below the cell's sid, its own included when it scores nothing |
| Theorems.CellIsBatch | lib/database/contest_ranking.go:187-242 | In a sound state at rest a cell is the batch cell: best on-time row, score descending, sid ascending, with its penalty |
| Theorems.BatchUnique | lib/database/contest_ranking.go:187-242 | There is one batch cell |
| Theorems.RankingIsView | lib/database/contest_ranking.go:167-264 | After every careful run, a cell at rest is what the batch query gives and its row is folded from its cells |
| Theorems.Confluence | ppjc/handlerv1.go:373-415 | Two careful runs over the same submissions with the same reported results end in the same ranking row, folded columns and penalties included |
| Transactions.RunMirrors | lib/database/contest_ranking.go:174-264 | While transactions of one participant do not overlap, committed rows with the pending writes made are those of the run with every update made at its read |
| Transactions.SerialRun | lib/database/contest_ranking.go:174-264 | So from the start: the same tables and waiting reports whenever nothing is under way, and at any time the same row of a participant without a transaction |
| Transactions.SerialFolds | lib/database/contest_ranking.go:244-260 | Then that row is folded from its cells |
| Transactions.SerialView | lib/database/contest_ranking.go:174-264 | And its cells at rest are the batch cells |
| Transactions.WriteCellExact | lib/database/contest_ranking.go:174-264 | Whatever was committed since the read, a write of a result that would be harmless now leaves the cells in agreement if and only if choosing again now gives the cell the transaction leaves, but for its penalty |
| Transactions.WriteFoldExact | lib/database/contest_ranking.go:244-260 | A write leaves a folded row if and only if the cells others changed since the read contribute to its columns now what they did then: the same sums mod 2^64 and, where the latest time is taken, the same latest of all |
| Examples.DemotionExample | lib/database/contest_ranking.go:207-219 | A run from the start that rests with a cell naming a submission with 60 and saying 30 |
| Examples.LateDemotionExample | lib/database/submission.go:513-521 | A run that rests with a late submission in the cell |
| Examples.SwallowedExample | lib/database/contest_ranking.go:194-200 | A run that rests with a cell of score 0 for a submission whose row says 100: its result was ignored |
| Examples.StaleExample | ppjc/handlerv1.go:373-415 | A run that rests with the cell of a result its row had dropped |
| Examples.LostCellExample | lib/database/contest_ranking.go:174-264 | Two overlapping transactions of one problem: at rest the cell says 60, though 100 was delivered |
| Examples.LostFoldExample | lib/database/contest_ranking.go:244-260 | Two of different problems: cells of 100 and 60, and a score of 60 |
| Database.DatabaseManager.SubmissionUpdateResult | lib/database/submission.go:523-566 | The row afterwards is the specified one, an unknown submission changes nothing, no other row moves |
| Database.DatabaseManager.SubmissionUpdateTestCase | lib/database/submission.go:568-623 | The same for a case message |
| Database.DatabaseManager.ReserveJid | ppjc/handlerv1.go:497-526 | The run gets one more than the used jid, and just that becomes the used jid |
| Database.DatabaseManager.RankingUserAdd | lib/database/contest_ranking.go:99-111 | The table afterwards is the specified one |
| Database.DatabaseManager.RankingProblemAdd | lib/database/contest_ranking.go:69-82 | The table afterwards is the specified one |
| Database.DatabaseManager.RankingUpdate | lib/database/contest_ranking.go:167-264 | Undisturbed, the table afterwards is the specified one; on an error nothing changes |
| Database.DatabaseManager.Fold | lib/database/contest_ranking.go:244-260 | The general cell and the two values come from the four loops over the cells |
| Database.DatabaseManager.UpdateResult | ppjc/handlerv1.go:373-415 | The handler's two transactions one after the other: row first, then, if the submission was made before the finish time, the ranking with the time since the start, even when the row dropped the result |
| Database.DatabaseManager.Rejudge | ppweb/contest_each.go:1003-1077 | Only the rows named change: they are in queue with score, time and memory 0, and any message of a newer run makes of them what it would have made without the rejudge |
| Standing.NoOverflow | lib/types/contest.go:40-110 | Under the bound on times and penalties the folded columns are the exact totals, with a minute of nanoseconds per penalty |
| Standing.StandingOrder | lib/database/contest_ranking.go:322 | Sorting descending by score, value1, value2 is the order documented for the contest type, if and only if |
| Standing.PenaltySettingExact | lib/types/contest.go:98-110 | The value uses the penalty setting as intended if and only if there is no penalty or the setting is one minute |
| Decimal.ParseFormat | lib/database/contest_problem.go:39-58 | Every int64 is read back from its decimal text |
| Decimal.FormatDigits | lib/database/contest_problem.go:50-58 | The text is the decimal notation, digit by digit, with a minus sign for negative numbers |
| Decimal.ParseOther | lib/database/contest_problem.go:39-48 | A number beyond int64 is read as the end of the range, a number with something after it as 0 |
| Decimal.ParseSigns | lib/database/contest_problem.go:39-48 | A plus sign is read, and a text without digits is 0 |
| Decimal.SplitJoin | lib/database/contest_problem.go:39-58 | Splitting undoes joining except for the empty list |
| Codecs.DecodeEncode | lib/database/contest_problem.go:39-58 | A list of int64 comes back from its text if and only if it is not empty |
| Codecs.EncodeExact | lib/database/contest_problem.go:50-58 | The text of a list is its numbers with commas between them |
| Codecs.DecodeExact | lib/database/contest_problem.go:39-48 | A text is read part by part, as many numbers as it has commas and one more |
| Codecs.ScoreSetCases.Get | lib/database/contest_problem.go:39-48 | The loop over the parts gives the decoded list |
| Codecs.ScoreSetCases.Set | lib/database/contest_problem.go:50-58 | The text afterwards is the encoded list |
| Codecs.ParseFormatEntry | lib/redis/judge_queue.go:15-37 | Every pair of cid and sid comes back from its text |
| Codecs.ParseEntryExact | lib/redis/judge_queue.go:19-37 | Two parts around one colon are read as numbers; a text without exactly one colon reads as -1 and -1 |
| Codecs.JudgeQueue.Push | lib/redis/judge_queue.go:39-45 | One entry is added behind those waiting, as cid, colon and sid at the left end of the list |
| Codecs.JudgeQueue.Pop | lib/redis/judge_queue.go:47-80 | Entries come out in the order they were pushed, each once |
| Downloader.FileNameInjective | ppjudge/downloader.go:62-64 | Different counter values give different file names |
| Downloader.KeysDistinct | ppjudge/downloader.go:16-18 | With the categories in use two different files never share a key |
| Downloader.KeysCollide | ppjudge/downloader.go:16-18 | With a category that is a prefix of another they can |
| Downloader.CategoriesPrefixFree | ppjudge/downloader.go:16-18 | No category in use is a prefix of another |
| Downloader.PPDownloader.constructor | ppjudge/downloader.go:31-48 | The cache starts empty |
| Downloader.PPDownloader.NewFileName | ppjudge/downloader.go:62-64 | The name is that of the next counter value |
| Downloader.PPDownloader.LookUp | ppjudge/downloader.go:69-75 | A hit counts, is stamped and yields the cached name; a miss changes nothing |
| Downloader.PPDownloader.Install | ppjudge/downloader.go:107-116 | The first writer's file becomes the key's, a later writer's is dropped, both get the key's file |
| Downloader.PPDownloader.NewLocker | ppjudge/downloader.go:221-248 | A locker exactly for a cached key, counted once |
| Downloader.PPDownloader.OpenFile | ppjudge/downloader.go:175-202 | A cached key is counted and its file name returned |
| Downloader.PPDownloader.Targets | ppjudge/downloader.go:138-145 | Exactly the expired keys with counter zero, each once, whatever the iteration order |
| Downloader.PPDownloader.Evict | ppjudge/downloader.go:147-154 | Exactly those keys leave all three maps, and their file names are returned |
| Downloader.PPDownloader.Sweep | ppjudge/downloader.go:136-155 | The two together: one file name for every expired key and none else |
| Downloader.PPLocker.Unlock | ppjudge/downloader.go:236-243 | However often it is called, the counter goes down once |
| SharedCache.StepAccounted | ppjudge/downloader.go:66-248 | Every critical section of every goroutine keeps the accounting |
| SharedCache.StepSafe | ppjudge/downloader.go:66-161 | And keeps mapped files on disk, unshared, and out of the way of every pending removal |
| SharedCache.PinAccounting | ppjudge/downloader.go:66-248 | In every reachable state the maps have the same keys, a counter is lockers plus open files plus hits plus failed opens, and a mapped file exists and is not about to be removed |
| SharedCache.DiskConserved | ppjudge/downloader.go:78-161 | In every reachable state a file is on disk if and only if it is mapped, about to be removed by a sweep, just written by a download, or left behind by a download that failed while writing |
| SharedCache.SweepSparesPinned | ppjudge/downloader.go:136-155 | A sweep never takes a key with a live locker or open file |
| SharedCache.SweptExactly | ppjudge/downloader.go:136-155 | In every reachable state a sweep takes exactly the cached keys with no pin whose last use (hit or install) is longer ago than the expiry |
| SharedCache.HeldPath | ppjudge/downloader.go:66-121 | The path of a live locker is the key's file, and on disk, if and only if no sweep came between choosing it and locking |
| SharedCache.HitPinsForever | ppjudge/downloader.go:70-77 | A key that was hit once stays in the cache for good |
| SharedCache.LateLockExample | ppjudge/downloader.go:107-121 | A run in which a live locker's path is gone from disk |
| Newline.OnePassIsTwoPass | ppjudge/variables.go:13 | The one-pass replacer equals the two-pass replacement of ppweb on every string |
| Newline.ReplacedByCases | ppjudge/variables.go:13 | A carriage return, with the line feed after it if there is one, becomes a line feed, and nothing else changes |
| Newline.NoCrLeft | ppjudge/variables.go:13 | Nothing is left to replace |
| Newline.Idempotent | ppjudge/variables.go:13 | Replacing twice is replacing once |
| Newline.ChunkingIrrelevant | ppweb/utility.go:152-179 | The reader's output does not depend on how the input is cut, and holds no CR |
| Newline.TrimmedByCases | ppweb/utility.go:152-179 | What the reader makes of each character: a return becomes a line feed, a line feed goes if the flag is set, others stay |
| Newline.FlagExact | ppweb/utility.go:152-179 | The flag is set after a text if and only if a return came, or it was set before, and no line feed since |
| Newline.TrimExact | ppweb/utility.go:152-179 | It equals the whole-string replacement if and only if no line feed follows a return after ordinary characters |
| Newline.UniformEndingsSafe | ppweb/handler.go:51-53 | Inputs with one kind of line ending meet that condition |
| Newline.LostFeedExample | ppweb/utility.go:172-173 | An input that does not |
| Newline.TrimNewlineReader.constructor | ppweb/utility.go:148-150 | The flag starts cleared |
| Newline.TrimNewlineReader.Read | ppweb/utility.go:152-179 | One read in place fills the buffer with the specified output and leaves the specified flag; with an error it passes on the length and none of the data |
| Judges.RunSimple | ppjudge/judge_simple.go:121-194 | One refusal, or for each case Judging and one terminal status in order and then one total with the worst status and the peaks, -1 if a case did not finish normally |
| Judges.RunCode | ppjudge/judge_runCode.go:233-370 | The same with a checker program; without its container the judge crashes, after Judging for the first case that needs the checker or, when none does, after the total |
| Judges.JudgeOne | ppjudge/judge_runCode.go:254-365 | The status of one case, and whether program and checker both finished normally |
| Judges.StreamedCase | ppjudge/judge_runCode.go:254-365 | For every case of a stream of either judge: which failure of reading, running or checking gives which status, the measurements sent, and Wrong Answer if and only if the first line of the checker's output is WA |
| Judges.StreamedWorst | ppjudge/judge_simple.go:121-194 | The status of the total is the worst in the stream |
| Judges.StreamedPeaks | ppjudge/judge_simple.go:121-194 | Its time and memory are the largest in the stream, or -1 once a status is worse than Wrong Answer |
| Judges.StreamedRefusal | ppjudge/judge_runCode.go:200-219 | A refusal is the whole stream, as the total |
| Judges.CutExact | ppjudge/judge_runCode.go:233-308 | Without the checker's container the stream ends with Judging of the first case whose program ran normally and whose files for the checker were written |
| Consumer.SumScores | ppjudge/main.go:504-515 | The loops give the sum of the sets whose existing cases are all Accepted: any set's score, if its existing cases are, and the sum of the others |
| Consumer.AllAcceptedScoresAll | ppjudge/main.go:504-515 | With every case accepted it is the full score |
| Consumer.SetCounts | ppjudge/main.go:504-515 | A set adds its score to that of the others if and only if every case it names, as far as it exists, is Accepted, and nothing otherwise |
| Consumer.LostSet | ppjudge/main.go:504-515 | When one set names cases that were not accepted, and no other set does, just its score is missing from the full score |
| Consumer.JudgeCase | ppjudge/main.go:553-610 | The comparison of one case, and when it crashes |
| Consumer.Consume | ppjudge/main.go:490-612 | The loop over the stream reports the specified outcome and each case's verdict in order |
| Consumer.CaseReportExact | ppjudge/main.go:553-610 | A case report field by field: the comparison, with line endings replaced on both sides if the problem says so, Internal Error without an expected output, and memory in thousands of bytes |
| Consumer.OutcomeExact | ppjudge/main.go:490-576 | The job crashes if and only if, before any total, an accepted case's expected output is missing; otherwise it sends nothing if and only if a failure was reported already or no total comes |
| Consumer.RefusalReported | ppjudge/main.go:502-531 | A refusal is passed on with time and memory 0, and scores 0 when every set names an existing case |
| JobVerdict.ReportIsVerdict | ppjudge/main.go:490-612 | Judge and consumer together: the job crashes if and only if an expected output it has to compare with is missing; otherwise the status is the worst verdict, the score that of the verdicts, Accepted if and only if every case is, and then the score is full; time and memory are the peaks, -1 and 0 once a case did not finish normally |
| JobVerdict.VerdictExact | ppjudge/judge_runCode.go:254-365 | The verdict on a case from what happened to it, field by field and if and only if |
| JobVerdict.ReportedWorst | ppjudge/main.go:516 | The judge's own total never changes what the verdicts give |
| JobVerdict.AcceptedMeansAll | ppjudge/main.go:504-516 | Accepted says that every case was accepted and every set is scored |
| Job.ProducerEnds | ppjudge/main.go:441-488 | In every interleaving the producer takes at most three steps a case and one more and is never stuck: its sends need no reader |
| Job.NeverStuck | ppjudge/main.go:353-616 | Until the job is over (or its process crashed) one of producer, judge and consumer can go on, though the status channel holds only ten messages |
| Job.ReleasedOnce | ppjudge/main.go:430-488 | Every test-case locker acquired is released exactly once, after producer and judge ended |
| Job.TakenHeld | ppjudge/main.go:430-488 | The files of a case the judge was given are pinned until then, and no longer |
| Job.ComparedHeld | ppjudge/main.go:556-576 | When the consumer comes to a case's verdict, the expected output is pinned if and only if the release is still to come |
| Job.LateComparison | ppjudge/main.go:434-439 | A run in which the accepted verdict of a case is unread when its output has been let go |
| Job.OneFinalResult | ppjudge/main.go:490-535 | A finished job sent one final result, or two exactly if the judge refused, that was passed on, and a download failed; otherwise every case was judged in order |
| Job.StatusRoom | ppjudge/main.go:353-429 | The status channel never holds more than ten messages, and the judge can send exactly while it holds fewer |
| Job.TwoFinalResults | ppjudge/main.go:518-520 | A run with two |
| Job.Prepare | ppjudge/main.go:239-428 | The exits before judging: what it takes to get to the judge, which files are pinned, and that leaving lets go of just those |
| Job.Run | ppjudge/main.go:239-616 | On every exit path the job's pins are let go exactly once and the slot is handed back once, after them; a job that is not judged sends one result; a crash of the consumer ends the process with nothing let go |
| Dispatcher.StepCredited | ppjc/handlerv1.go:466-574 | Every step of dispatcher, reader or worker keeps each slot in one place |
| Dispatcher.SlotCredits | ppjc/handlerv1.go:438-574 | In every run available slots, held slot, jobs at the worker and unread messages add up to the worker's parallelism; none is negative |
| Dispatcher.NoMoreThanAsked | ppjc/handlerv1.go:423-543 | In every run, however its worker connected, a worker never has more jobs than it asked for |
| Dispatcher.FreeSlotServes | ppjc/handlerv1.go:466-490 | With an item waiting, the dispatcher can pop it, the oldest first, if and only if it has a free slot |
| Dispatcher.OnePlace | ppjc/handlerv1.go:466-543 | In every run a submission that was queued is waiting, dropped, finished, or with exactly one dispatcher or worker |
| Dispatcher.DispatchedOnce | ppjc/handlerv1.go:466-543 | It is written to a worker at most once |
| Dispatcher.Slots | ppjc/handlerv1.go:423-427 | What a positive header asks for, otherwise one |
| Dispatcher.Connection.constructor | ppjc/handlerv1.go:423-439 | All slots are free at the start, and accounted for |
| Dispatcher.Connection.JudgeOneFinished | ppjc/handlerv1.go:569-573 | A finished job gives its slot back, and there are never more free slots than the worker has |
| Dispatcher.Connection.Poll | ppjc/handlerv1.go:466-543 | One turn of the loop, with finish messages counted in between, keeps free, used and lost slots adding up: a slot stays taken only for a sent job or a cancelled pop |
| Files.PathInjective | lib/filesystem/mongo.go:165-167 | Different file ids give different paths, whichever processes made them |
| Files.CategoriesApart | lib/filesystem/mongo.go:23-29 | Each kind of field has a category of its own, inputs and outputs share one |
| Files.PathText | lib/filesystem/mongo.go:165-167 | The categories' names and the text of a path |
| Files.StepLive | lib/filesystem/mongo.go:181-218 | Replacing, dropping, resizing and removing keep every named file on disk, named once, and not queued |
| Files.StepConserved | lib/filesystem/mongo.go:157-218 | And keep the disk the disjoint union of named, queued and leaked files |
| Files.LiveFilesSafe | lib/database/submission.go:540-617 | In every serial run of committed updates from the empty store: named files exist, are named once and not queued, and every file on disk is named, queued or leaked |
| Files.ResizeExact | lib/database/contest_problem.go:276-283 | A new length removes exactly the fields of the cases beyond it and queues exactly their files |
| Files.FilesBeyond | lib/database/contest_problem.go:276-283 | The queued files are those of the cases beyond the new length: input, then output, of each in order |
| Files.FilesAt | lib/database/contest_problem.go:276-283 | The files of cases are two a case, input then output |
| Files.UpdateTestCaseNames | lib/database/contest_problem.go:262-308 | Every case takes its new name; kept cases keep id and files at the same index, new ones have neither; the old files split exactly into kept and queued |
| Removal.PadOrder | ppms/remove_file.go:74-77 | Zero-padded numbers are ordered like their texts |
| Removal.StampEarlier | ppms/remove_file.go:74-77 | Timestamps in the format of section 5.6 of RFC 3339, in one zone, are ordered as section 5.1 of RFC 3339 says |
| Removal.StampExact | ppms/remove_file.go:74-77 | The timestamp of a second is the date of the Gregorian calendar and the time of day: the day number in closed form gives year, month and day |
| Removal.LeapDayExample | ppms/remove_file.go:74-77 | The text of the last second of a leap day |
| Removal.KeyOrder | ppms/remove_file.go:77 | A key with its suffix is at most a bare timestamp if and only if its second is strictly earlier |
| Removal.SweptExactly | ppms/remove_file.go:74-86 | An entry is at most the upper end if and only if the second 300 seconds after queueing is strictly before the sweep's; so never within five minutes, and always after five minutes and a second |
| Removal.DueExactly | ppms/remove_file.go:74-77 | With the lower end: it is due if and only if that second lies from the clock's start up to, but not at, the sweep's |
| Removal.EndsIncluded | ppms/remove_file.go:77 | Both ends of a sweep belong to it, keys before and after do not |
| Removal.QueueKeysDistinct | ppms/remove_file.go:126-131 | Two files of a category queued in the same second have different keys |
| Removal.RemovalBucket.constructor | ppms/remove_file.go:38-42 | The bucket starts empty |
| Removal.RemovalBucket.Put | ppms/remove_file.go:126-131 | The entry is stored under its key, replacing an equal key; key order is kept |
| Removal.RemovalBucket.Sweep | ppms/remove_file.go:71-86 | Exactly the entries between the two ends leave the bucket, and their files are returned |
| Removal.RemovalBucket.RemoveFile | ppms/remove_file.go:119-131 | The file is queued under the timestamp five minutes from now, its category and its path; exactly the entry of that key is replaced |
| Removal.RemovalBucket.Tick | ppms/remove_file.go:71-86 | A sweep of entries so queued keeps an entry if and only if its second is not over, so surely within 300 seconds and surely not after 301, and returns the files of the others |

## Left out

- MySQL, Redis, MongoDB, Bolt, websocket and Docker clients: a committed transaction is one step, a list or bucket is a sequence, GridFS is a set of names, an execution is an arbitrary result with non-negative time and memory.
- Failing commits: file clean-up runs before the commit (lib/database/contest_problem.go:327, lib/database/submission.go:561), so the file results assume that commits succeed.
- Theorems.RankingIsView: asks for careful runs: sids in order of submit time, a ranking row and column present when a result arrives, harmless updates (which `Theorems.AgreementExact` shows to be necessary), and a run that reports again repeating the score and kind of its first result. A worker reports again only after a refusal (`Job.OneFinalResult`), which never counts for the penalty and scores what the failed download does, 0, unless a score set names no existing case. A second result of a kind that does count, which no worker sends, is covered while the row still shows that or a newer run.
- Theorems.FoldsRun: takes an update as one step; `Transactions` splits it and says when that is right.
- Transactions.SerialRun: every transaction commits, and reads all it needs at one moment, as a snapshot.
- Pipeline.DemotionExact: leaves out a row returned that was reset after its delivery, because the table no longer has its old result; `Pipeline.DemotedExact` and `Pipeline.UpdateExact` have the condition for every case.
- Database.DatabaseManager.UpdateResult: runs the two transactions without a step of somebody else in between; the interleavings are in `Pipeline`.
- Contests: one contest at a time, with a fixed type and fixed times; changing them, or deleting a problem, recomputes no row in the code and has no step here.
- SubmissionRemove and the deletion of contests: lib/database/submission.go:102-139 writes through nil before it does anything.
- RankingCell storage: cells are modelled after parsing; the JSON text, the column names and the query builder are left out.
- Language, code text, messages and progress strings of submissions: carried along by the code, never looked at.
- Codecs.JudgeQueue.Pop: the blocking wait, its timeout and its cancellation are steps of the dispatcher model, not of the queue.
- Downloader.PPDownloader.Sweep: takes the expiry as it is given; the code raises an expiry below one minute to one minute when the sweeper starts (ppjudge/downloader.go:124-126).
- SharedCache.PinAccounting: closing the same file handle twice is not a step, the network fetch may fail but does not change the cache, and a mutex section is atomic.
- Judges.RunSimple: the set-up before the first case (directories, source file, compiler, container) is one parameter, ready or refused.
- Judges.RunCode: so is its set-up with the checker's compilation; what the checker reads and prints is arbitrary, so the wrong input it is given makes no difference here.
- Consumer.Consume: the HTTP calls that carry its reports always return; a read error of an opened file is kept as Unreadable.
- Job.ComparedHeld: whether an unpinned output is still cached when it is opened is the cache's matter; opening may fail at any accepted verdict (`Crash`).
- Job.Run: problem types other than the three known ones, for which the code would call a nil judge; a crash of the judge, which like one of the consumer ends the process.
- Dispatcher.SlotCredits: a message that fails to be written counts as not received, and a worker reports a job finished once, as `Job.Run` shows it does.
- Files.UpdateTestCaseNames: the rows come in the order the database returns them; score sets and the updated total are left out.
- Files.LiveFilesSafe: files attached to problems and images are left out; a failed upload leaves a file that nobody names, counted as leaked.
- Removal.StampEarlier: years beyond 9999, and a clock or zone that is set back between queueing and sweeping.
- Removal.RemovalBucket.Sweep: the cursor's behaviour when entries are deleted while it moves; the sweep is a range removal.
- Newline.TrimExact: a whole input is read without errors; data that comes with one is lost, as `Newline.TrimNewlineReader.Read` states.
- Sessions, mail, tokens, settings, templates, forms, pagination, HTTP routing, and the superseded ppjc/legacy code: plumbing, or easy.
