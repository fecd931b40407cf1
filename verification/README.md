# Verified models of edx-platform's tooling algorithms

A Dafny 4.11 model of the algorithms in edx-platform's build and test tooling that are hard to get right,
with proofs about every input, every run or every reachable state. Check it with
`dafny verify dfyconfig.toml`.

- `FailureFinder`, `Bisection`, `ConsoleLog`: finding order-dependent test failures. A console log of
  pytest-xdist is stripped to the failing worker's test list, and the list is halved while pytest runs, which
  may be flaky, report failures. The runs are an arbitrary function of the run number and the list.
- `Passthrough`: the option parser that passes on options it does not know, inside optparse's loop.
- `DbCache`: the test-database cache that sharded jobs share through an S3 bucket keyed by fingerprint, as a
  state machine of atomic steps of any number of jobs, with S3 unreachable at any step; and the two Paver
  tasks as programs that refine those steps.
- `Warnings`, `HtmlReport`, `Sessions`: from the JSON reports of pytest sessions to one nested
  HTML report of all warnings.
- `Debounce`: the timer decorator as a state machine of notifications, timers and overlapping calls.
- `Prereqs`: installing prerequisites only when their files changed, and uninstalling unwanted packages.
- `Workers`: bringing up EC2 test workers with retries, polling and SSH sweeps.
- `MonthDelta`: month arithmetic on dates.
- `Common`: options, subsequences, powers of two, Python's `split` and `join`. `Ordering`: string order, the
  stable sort, sums.

The imperative parts of the source are classes and methods, each proved to compute a specification
function; the lemmas say what those functions mean.

## Where code and documentation disagree

The model follows the code. These are proved, each with the exact condition or a concrete case.

- The bisection does not always find the fewest tests (`FewestCanBeMissed`). With deterministic runs it does, on
  every list, exactly when halving never loses them (`AlwaysFewestIff`), and it gets down to pairs exactly when
  every failing list of three or more has a failing half (`PairsIffSomeHalfFails`).
- Files of failing lists are to be kept, but the format string of their names has three places for four values,
  so the length is dropped and lists of one kind overwrite each other (`FailingListIsLost`). A failing list is
  kept exactly when no later one of its kind fails (`FailingListIsKeptIff`); the reported file is right all the
  same (`HitIsOnFile`).
- In fast mode "one test per class" is kept once over all workers, so the failing worker's list can lack a
  class it ran (`FailingWorkerCanLackBase`). It has one exactly when it was the first of all workers to pass a
  test of it, or failed one (`StrippedHasBaseIff`).
- A cluster of short options with a dash inside can be passed on as a long option
  (`InnerDashMakesLongOption`); parsing the passed-on list again changes nothing exactly when no cluster of the
  command line leaves over what spells `--` or a known long option (`ReparseIsIdempotentIff`).
- If S3 answers a job's first probe and not the second, the job ends without an error on unmigrated files
  (`LostBetweenProbes`, exactly then: `TaskIsLostIff`, and for jobs in any interleaving
  `FinishedIsMigratedIff`). Recording the fingerprint then vouches for them; the record is honest exactly when
  that did not happen or nothing was to migrate (`RewriteIsHonestIff`).
- The task is to prepare the MySQL test database, but recording the fingerprint resets it: the database holds the
  files in the end exactly when the fingerprint matched or none was to be recorded. The shell script's rebuild
  also removes the fingerprint file. Both on the task's inputs (`TaskLeaves`) and for jobs in any interleaving
  (`FinishedIsLoadedIff`, `FinishedFingerprint`).
- The fingerprint hashes file contents run together, so no hash tells all files apart
  (`BoundariesAreNotHashed`). The laws assume it of the files that ever occur, a set closed under migrating from
  which edits are drawn; for a hash without collisions that assumption holds exactly when none of them cuts
  the same text as another at different places (`TellsApartIff`).
- Session files are numbered so that none is overwritten, but from the 102nd session on file 100 is; the
  report is complete exactly when no overwritten file held a warning (`NothingIsLost`).
- `debounce` promises calls at least `seconds` apart; a call that ends after a new notification clears the
  newer timer, and two calls can then start one time unit apart (`OverlappingCallsComeTooClose`). A call's end is
  harmless exactly when it clears no waiting timer (`HarmlessIffClean`), as when no notification comes in during a call
  (`AtomicRunIsClean`).
- A failed install is forgotten when the edit that led to it is taken back: the task is skipped although the
  failure may have changed the environment (`FailedInstallIsForgotten`); the skip is sound exactly when the last
  attempt was the recorded install or left the same environment (`SkipIsSoundIff`).
- `monthdelta` has its leap test wrong for years divisible by 100: it raises or loses the 29th of February
  (`ClampsLeastIff`, `CenturyOutcome`).

## Model

| member | source | states |
|---|---|---|
| FailureFinder.FindFailure | scripts/xdist/find_order_dependent_test_failures.py:58-88 | the program from log to verdict reaches the conclusion determined by the stripped list and the runs |
| FailureFinder.VerdictFromLog | scripts/xdist/find_order_dependent_test_failures.py:66-88 | what each verdict means in terms of log and runs: no failure exactly when no line is FAILED; fails alone exactly when the failing test's lone run fails; reproduced exactly when that passes and the whole list fails; not reproduced otherwise |
| FailureFinder.ReportedListIsFromTheLog | scripts/xdist/find_order_dependent_test_failures.py:58-88 | for any log and any flaky runs, a reported list has at least two tests, was seen failing, is a subsequence of what one worker ran up to the first FAILED line and ends with that line's test, which passed alone |
| FailureFinder.StrippedIsFromWorker | scripts/xdist/find_order_dependent_test_failures.py:97-130 | the stripped list, fast or slow, is a subsequence of the failing worker's plain list on the log cut after the first failure |
| Bisection.RoundHalfTiesToEven | scripts/xdist/find_order_dependent_test_failures.py:205 | the rounding is to the nearest integer, ties to even, as Python's round |
| Bisection.HalfA | scripts/xdist/find_order_dependent_test_failures.py:205-207 | the first half is a shorter list of at least two tests, at most half of them before the kept last test |
| Bisection.HalfB | scripts/xdist/find_order_dependent_test_failures.py:205-208 | the second half likewise |
| Bisection.HalvesShare | scripts/xdist/find_order_dependent_test_failures.py:205-208 | the halves split the tests before the last one between them, none lost, none twice |
| Bisection.Bisect | scripts/xdist/find_order_dependent_test_failures.py:187-219 | every search, whatever the answers, is a well-formed tree of calls: B is tried only if A came back empty-handed, nothing is halved unless it failed |
| Bisection.EmptyHandedIffFirstRunPasses | scripts/xdist/find_order_dependent_test_failures.py:195-200 | a call returns None exactly when the list is too short or its own run passes, and then makes no other run |
| Bisection.Halving | scripts/xdist/find_order_dependent_test_failures.py:205-219 | what a call on three or more failing tests returns and how many runs it makes, from the calls on its halves |
| Bisection.HitIsLastFailure | scripts/xdist/find_order_dependent_test_failures.py:187-219 | the list returned is the last one seen failing; it is a pair, or both its halves were seen passing right after |
| Bisection.HitSelectsFromInput | scripts/xdist/find_order_dependent_test_failures.py:187-219 | the list returned selects tests of the input by increasing positions and keeps its last test |
| Bisection.RunsAreLogarithmic | scripts/xdist/find_order_dependent_test_failures.py:195-219 | n tests cost at most 1 + 2 ceil(log2(n-1)) runs, for any answers |
| Bisection.RunBoundIsReached | scripts/xdist/find_order_dependent_test_failures.py:195-219 | the bound is attained for every power of two |
| Bisection.SingleCulpritIsFound | scripts/xdist/find_order_dependent_test_failures.py:187-219 | if lists fail exactly when some bad test precedes the last one, the result is the first bad test and the last test |
| Bisection.PairsIffSomeHalfFails | scripts/xdist/find_order_dependent_test_failures.py:202-219 | a deterministic search always ends on pairs if and only if every failing list of three or more has a failing half |
| Bisection.AlwaysFewestIff | scripts/xdist/find_order_dependent_test_failures.py:187-219 | a deterministic search returns a shortest failing selection that keeps the last test, on every list, if and only if the failing half it goes into always holds one and a failing list with two passing halves always is one |
| Bisection.HitFails | scripts/xdist/find_order_dependent_test_failures.py:187-219 | with deterministic runs, the list returned fails and selects two or more tests of the input, the last one included |
| Bisection.FewestCanBeMissed | scripts/xdist/find_order_dependent_test_failures.py:217-219 | an example where halving loses them: five tests whose failure needs two from different halves are returned whole although three would fail |
| Bisection.CommandReplaysList | scripts/xdist/find_order_dependent_test_failures.py:133-137 | the words a shell reads from the list's file are exactly the tests, in order |
| Bisection.ReplayOnlyAddsOutputs | scripts/xdist/find_order_dependent_test_failures.py:177-184 | files left behind are only those named after kinds of failing runs; no temporary file remains |
| Bisection.OutputNamesDiffer | scripts/xdist/find_order_dependent_test_failures.py:164-166 | different suites and different kinds of lists have different file names |
| Bisection.SearchShortens | scripts/xdist/find_order_dependent_test_failures.py:195-219 | in a search each failing run is on a strictly shorter list than all failing runs before it |
| Bisection.FailingListIsKeptIff | scripts/xdist/find_order_dependent_test_failures.py:153-219 | the file named after a failing run holds its list in the end if and only if no later failing run of the search has the same kind |
| Bisection.ProgramKeepsListIff | scripts/xdist/find_order_dependent_test_failures.py:58-88 | the same of the whole program, its first lone run included |
| Bisection.FailingListIsLost | scripts/xdist/find_order_dependent_test_failures.py:164-178 | a failing list that no file holds in the end, because group A failed twice |
| Bisection.HitIsOnFile | scripts/xdist/find_order_dependent_test_failures.py:153-219 | although names repeat and lists overwrite each other, the hit's file holds the hit's list in the end |
| Bisection.ReportedCommandIsGood | scripts/xdist/find_order_dependent_test_failures.py:58-88 | the reported command names an existing file with the reported number of tests, a subsequence of the input seen failing, whose last test passed alone |
| Bisection.VerdictMeans | scripts/xdist/find_order_dependent_test_failures.py:66-88 | each verdict holds exactly for its runs: none at all; one failing lone run; a passing lone run and then a failing run of the whole list; a passing lone run and, unless the list is one test, a passing run of the whole list and nothing else |
| Bisection.VerdictIs | scripts/xdist/find_order_dependent_test_failures.py:66-88 | the same in terms of what pytest answers |
| Bisection.CommandNamesFile | scripts/xdist/find_order_dependent_test_failures.py:137 | what the command's backquotes enclose is a `cat` of the file's path in the folder |
| Bisection.Finder.RunTests | scripts/xdist/find_order_dependent_test_failures.py:140-150 | a run is answered by the next answer and logged |
| Bisection.Finder.CreateAndCheck | scripts/xdist/find_order_dependent_test_failures.py:153-184 | one run of the list; its file stays under the kind's name exactly if it failed, the temporary file never |
| Bisection.Finder.FindFewest | scripts/xdist/find_order_dependent_test_failures.py:187-219 | the recursive program makes exactly the specified runs, leaves the specified files and returns the hit and its command |
| Bisection.Finder.Investigate | scripts/xdist/find_order_dependent_test_failures.py:66-88 | folder emptied, failing test tried alone first, then bisected; verdict, runs and files as specified |
| ConsoleLog.GroupByWorker | scripts/xdist/get_worker_test_list.py:31-44 | the dictionary has exactly the workers that report, each with all its tests in log order |
| ConsoleLog.PlainListComesFrom | scripts/xdist/get_worker_test_list.py:34-44 | a worker's plain list comes, in order, from exactly all lines it reported, whatever their status |
| ConsoleLog.TestNameIs | scripts/xdist/find_order_dependent_test_failures.py:114-116 | tests of the shared libraries, and no others, are listed under common/lib |
| ConsoleLog.StripConsole | scripts/xdist/find_order_dependent_test_failures.py:97-130 | in slow mode the failing worker's plain list on the cut log, in fast mode its failures and first-of-base passes; None without a FAILED line |
| ConsoleLog.BaseAndLast | scripts/xdist/find_order_dependent_test_failures.py:120 | a test name is its base, two colons and its last part |
| ConsoleLog.BaseIs | scripts/xdist/find_order_dependent_test_failures.py:120 | the base of a test drops its last two colons and what is behind them, in which there are none; a test without any has an empty base |
| ConsoleLog.FastSelectsFromPlain | scripts/xdist/find_order_dependent_test_failures.py:117-125 | the fast list selects from the plain list by increasing positions, and both end with the failing test |
| ConsoleLog.StrippedEndsWithFailure | scripts/xdist/find_order_dependent_test_failures.py:97-130 | the result is non-empty and ends with the first failing test, in both modes |
| ConsoleLog.FastListComesFrom | scripts/xdist/find_order_dependent_test_failures.py:117-125 | a worker's fast list comes, in order, from exactly its FAILED lines and those of its PASSED lines that are the log's first for their base |
| ConsoleLog.PassedEntryIff | scripts/xdist/find_order_dependent_test_failures.py:117-123 | a worker's fast list has an entry from a PASSED line for a base if and only if the log's first PASSED line for that base is the worker's |
| ConsoleLog.EachBaseListedOnce | scripts/xdist/find_order_dependent_test_failures.py:117-123 | over the fast lists of all workers, each base of a PASSED line has exactly one entry from a PASSED line |
| ConsoleLog.FastListHasBaseIff | scripts/xdist/find_order_dependent_test_failures.py:117-125 | a worker's fast list names a test of a class if and only if the worker was the first of all to pass one, or failed one |
| ConsoleLog.StrippedHasBaseIff | scripts/xdist/find_order_dependent_test_failures.py:97-130 | the list returned in fast mode names a test of a class if and only if the failing worker was the first of all to pass one before the failure, or it is the failing test's own class |
| ConsoleLog.FailingWorkerCanLackBase | scripts/xdist/find_order_dependent_test_failures.py:117-123 | an example: another worker ran the class first, and the failing worker's fast list lacks it though its slow list has it |
| Common.JoinUndoesSplit | scripts/xdist/find_order_dependent_test_failures.py:120 | splitting and joining by the same separator gives the text back |
| Common.PartsLackSep | scripts/xdist/find_order_dependent_test_failures.py:120 | no part of a split text holds the separator, and there are several parts exactly when the text does |
| Common.ContainsIff | scripts/xdist/find_order_dependent_test_failures.py:115 | containment means occurrence at some position |
| Passthrough.StepUses | pavelib/utils/passthrough_opts.py:31-127 | every turn that is no error uses up at least one token, and exactly the option token plus its declared values, one less if a value is attached: the parse terminates although tokens are pushed back |
| Passthrough.StepIsLocal | pavelib/utils/passthrough_opts.py:31-127 | a turn depends only on the tokens it uses up |
| Passthrough.TurnAccounted | pavelib/utils/passthrough_opts.py:31-127 | what becomes of the tokens of a turn: the values processed for a long option, or for the options of a cluster, are the attached text, if any, and then exactly the tokens behind it, as many as declared; unknown options and characters are passed on; a positional is kept |
| Passthrough.ParseAccounted | pavelib/utils/passthrough_opts.py:18-127 | a parse cuts the command line into such turns: each token is used once, in order, as option, value, passed-on option or positional, nothing else is processed or passed on, and it ends at the end, behind `--`, or before the first positional if these may not be mixed in |
| Passthrough.LongRejectedIff | pavelib/utils/passthrough_opts.py:57-78 | a long option ends the program exactly when it is known and too few values are left, one is attached though it takes none, or processing fails |
| Passthrough.ClusterRejectedIff | pavelib/utils/passthrough_opts.py:87-124 | a cluster does exactly when that holds of one of its known options up to where it stops |
| Passthrough.UnknownOptionDoesNotInterfere | pavelib/utils/passthrough_opts.py:48-54 | an unknown long option, or a cluster of unknown characters, inserted at any option boundary leaves processed options, values, positionals and errors as they were and adds exactly that token at its place in the passed-on list |
| Passthrough.ClusterSplits | pavelib/utils/passthrough_opts.py:80-127 | the characters of a cluster up to where it stops split into processed options and passed-on characters, both in order; the rest is the first value of the stopping option |
| Passthrough.ReparseIsIdempotentIff | pavelib/utils/passthrough_opts.py:31-127 | parsing the passed-on list again processes nothing and gives the same list, if and only if no cluster of the command line, where a turn starts on it, leaves over characters that spell `--` or match a long option behind a dash |
| Passthrough.PassedBiteIff | pavelib/utils/passthrough_opts.py:126-127 | a passed-on token is `--` or matches a long option exactly when such a cluster is on the command line |
| Passthrough.NoInnerDashNoBite | pavelib/utils/passthrough_opts.py:80-127 | that is so when no cluster has a dash inside |
| Passthrough.InnerDashMakesLongOption | pavelib/utils/passthrough_opts.py:126-127 | the counterexample: of `-a-b` with a known, `--b` is passed on |
| Passthrough.PassthroughParser.ProcessLongOpt | pavelib/utils/passthrough_opts.py:31-78 | popping, pushing back and slicing the queue in place amounts to one turn of the specification |
| Passthrough.PassthroughParser.ProcessShortOpts | pavelib/utils/passthrough_opts.py:80-127 | likewise for clusters |
| Passthrough.PassthroughParser.ProcessArgs | pavelib/utils/passthrough_opts.py:18-29 | optparse's inherited loop around the two handlers computes the whole specified parse, for both settings of interspersed arguments |
| DbCache.StepKeepsJob | pavelib/database.py:96-136 | every atomic step of a job keeps what is known at its position: files, MySQL contents and fingerprint belong together, and at the end MySQL holds the files unless recording the fingerprint emptied it |
| DbCache.StepKeepsBucket | pavelib/utils/db_utils.py:214-247 | every step keeps all bucket entries right and never replaces one |
| DbCache.UploadAdds | pavelib/utils/db_utils.py:214-247 | an upload that reaches S3 leaves its fingerprint in the bucket, with the job's files if it was not there |
| DbCache.BucketIsAlwaysRight | pavelib/database.py:89-129 | under every interleaving of any number of jobs with S3 failing anywhere, each bucket entry holds the migrated form of the files its fingerprint names |
| DbCache.MatchMeansMigrated | pavelib/database.py:99-103 | over any runs of both tasks mixed with edits, if the fingerprint on disk matches then the files are fully migrated, given that a first probe's yes is repeated |
| DbCache.RunKeepsHonest | pavelib/database.py:131-136 | recorded fingerprints stay honest over every such run |
| DbCache.FinishedMeansMigrated | pavelib/database.py:96-129 | a finished job has the migrated form of the files it started from, whichever branch it took |
| DbCache.ShardsAgree | pavelib/database.py:118-129 | shards that started from the same files and code finish with the same files |
| DbCache.FinishedIsMigratedIff | pavelib/database.py:96-129 | over every run, with S3 failing anywhere: a finished job has its starting files if the fingerprint on disk matched when its task began or S3 failed its second probe, else their migrated form; so they are migrated exactly when neither happened or nothing was to migrate |
| DbCache.FinishedIsLoadedIff | pavelib/database.py:66-67 | over every run: a finished job's MySQL test database holds its files if and only if its latest task did not go on to record the fingerprint; else it is empty |
| DbCache.FinishedFingerprint | pavelib/database.py:131-136 | over every run: what a finished job's fingerprint file is, from what disk and S3 answered its latest task and whether it recorded |
| DbCache.FinishedIsShared | pavelib/database.py:118-129 | over every run: when a finished job migrated and S3 was reached to find or upload the files, the bucket has the migrated form of the files it started from |
| DbCache.LaterShardFetches | pavelib/database.py:105-108 | from then on every task on the same files that reaches S3 and does not match ends with the migrated files from the bucket and uploads nothing |
| DbCache.TaskIsARun | pavelib/database.py:65-136 | a task from beginning to end is one of the interleaved runs, so all of the above applies to it |
| DbCache.RerunMatches | pavelib/database.py:96-136 | once a job has recorded the fingerprint in any run, on any branch, all its further tasks take the match branch and change neither files nor fingerprint, whatever other jobs do in between, until its workspace is edited |
| DbCache.SettledStays | pavelib/database.py:99-103 | each single step of that, which leaves the bucket alone too |
| DbCache.SecondTaskMatches | pavelib/database.py:96-136 | in particular a whole task run twice, the second of which loads MySQL |
| DbCache.LostBetweenProbes | pavelib/utils/db_utils.py:193 | a bucket lost between two probes leaves the job, without an error, on unmigrated files that it may record |
| DbCache.RecordingIsHonestIff | pavelib/utils/db_utils.py:51-57 | a fingerprint just recorded is honest if and only if the files are fully migrated |
| DbCache.TaskIsLostIff | pavelib/utils/db_utils.py:186-199 | a task that ends without an error fell back on unmigrated files if and only if the fingerprint on disk did not match, S3 had it for the first probe and S3 could not be reached for the second |
| DbCache.TaskLeaves | pavelib/database.py:96-136 | on its inputs, a task that ends without an error leaves MySQL loaded if and only if the fingerprint matched or none was to be recorded, and empty otherwise; the fingerprint file is kept if it matched or S3 had the bucket and none was to be recorded, new if one was, and gone if migrating rebuilt the cache |
| DbCache.TaskComputes | pavelib/database.py:96-129 | on its inputs: when a task fails, which files it ends with on each branch, and what it uploads |
| DbCache.RecreatedMatches | pavelib/database.py:44-56 | recreating the cache migrates an empty one whatever was there, and the next task matches and loads the result |
| DbCache.RewriteIsHonestIff | pavelib/database.py:131-136 | the fingerprint the task records is honest if and only if that did not happen or nothing was to migrate |
| DbCache.CollideIff | pavelib/prereqs.py:72-87 | for a hash without collisions, two sets of fingerprinted files collide exactly when they cut the same text at different places |
| DbCache.TellsApartIff | pavelib/prereqs.py:64-87 | so fingerprints tell the files that occur apart if and only if none of them is a shifted cut of another |
| DbCache.BoundariesAreNotHashed | pavelib/utils/db_utils.py:75-80 | they cannot tell all files apart, whatever the hash: moving a text from one migrations file to the other goes unnoticed |
| DbCache.Workspace.RemoveFilesFromFolder | pavelib/utils/db_utils.py:19-31 | the named files are gone, missing ones are no error |
| DbCache.Workspace.VerifyFilesExist | pavelib/utils/db_utils.py:95-105 | succeeds exactly when all files are there |
| DbCache.Workspace.ResetTestDb | pavelib/utils/db_utils.py:34-48 | loading, or migrating and rebuilding the cache when asked to or when files are missing |
| DbCache.Workspace.ComputeFingerprint | pavelib/utils/db_utils.py:60-82 | the digest of files and migrations, None when a file is missing; MySQL is emptied on the way |
| DbCache.Workspace.ExtractFiles | pavelib/utils/db_utils.py:176-183 | the listed files are overwritten from the archive, others kept |
| DbCache.ProbeAnswerLasts | pavelib/utils/db_utils.py:129-143 | a fingerprint found in the bucket stays there, with the migrated form of the files asked for, whatever all jobs do afterwards |
| DbCache.Workspace.RefreshFromS3 | pavelib/utils/db_utils.py:186-199 | the files become the bucket's, or stay when the second look finds nothing |
| DbCache.Workspace.UploadDbCache | pavelib/utils/db_utils.py:214-247 | an upload adds an entry and never replaces one |
| DbCache.Workspace.UseBucket | pavelib/database.py:105-108 | the branch that finds the fingerprint in the bucket takes the job's steps from there, or fails where they fail |
| DbCache.Workspace.MigrateAndShare | pavelib/database.py:110-129 | the branch that does not migrates, looks again and uploads, as the job's steps do |
| DbCache.Workspace.UpdateBokchoyDbCache | pavelib/database.py:44-56 | recreating the cache ends with migrated files and their fingerprint on disk |
| DbCache.Workspace.UpdateLocalBokchoyDbFromS3 | pavelib/database.py:65-136 | the task as a program ends without an error exactly when its steps do, with the same workspace and bucket |
| Ordering.SortByKeyIsStable | openedx/core/process_warnings.py:168 | sorting orders by key and keeps rows of equal key in order |
| Ordering.LeqIsLexicographic | openedx/core/process_warnings.py:168 | the order of keys: a proper front comes first, otherwise the first difference decides |
| Warnings.GroupsPartition | openedx/core/process_warnings.py:158-175 | grouping partitions the rows: each key once, each group the rows of its key in order, counts descending with ties in key order, all groups together a permutation, counts adding up |
| Warnings.EveryRowHasItsGroup | openedx/core/process_warnings.py:168-173 | every row is in the group of its key |
| Warnings.GroupAndSortBySumOf | openedx/core/process_warnings.py:158-175 | the loop over runs with its second stable sort computes that grouping |
| Warnings.CompressionConserves | openedx/core/process_warnings.py:119-128 | the counts of the compressed rows add up to the number of warnings |
| Warnings.CompressedRowsAreDifferent | openedx/core/process_warnings.py:119-128 | compressed rows differ in more than their counts, each counts exactly the warnings like it, and every warning is represented |
| Warnings.CompressSimilarWarnings | openedx/core/process_warnings.py:119-128 | counting and writing the counts in place computes the compression |
| Warnings.ConvertWarningDictToList | openedx/core/process_warnings.py:65-76 | a row in column order, missing columns null, counting once |
| Warnings.ConvertedHolds | openedx/core/process_warnings.py:17-27 | the row's columns are the report's entries of the same names |
| Warnings.SeparateWarningsByLocation | openedx/core/process_warnings.py:30-62 | each row gets the location of the first matching pattern, or "other"; nothing else changes |
| Warnings.LocationIsFirstMatch | openedx/core/process_warnings.py:48-61 | the location belongs to the first pattern that matches and is "other" exactly when none does |
| Warnings.Process | openedx/core/process_warnings.py:148-155 | rows are classified one by one and then compressed |
| Warnings.ClassifiedIs | openedx/core/process_warnings.py:149-153 | a classified row tells whether its message says "deprecated" and where its file is, and is otherwise as read |
| HtmlReport.SectionsAreWellFormed | openedx/core/write_to_html.py:83-98 | an outline is written as a balanced nesting with consecutive section ids |
| HtmlReport.OutlineConserves | openedx/core/process_warnings.py:189-246 | all warnings are at the leaves and every group's count is the sum of its children's |
| HtmlReport.SizesSplit | openedx/core/write_to_html.py:88-92 | the sections are the groups of all levels and the warnings |
| HtmlReport.OutlineIsFiled | openedx/core/process_warnings.py:189-246 | on every level each key has one section, larger counts first and ties in key order, under it the rows of that key and no others, filed again on the next level; the last level lists them in order |
| HtmlReport.ReportIsFaithful | openedx/core/process_warnings.py:178-246 | the whole report: balanced, ids 0 to k-1 for k groups and warnings, every warning exactly once and under its own category, location and message, siblings distinct and ranked, counts consistent on every level |
| HtmlReport.ReportReads | openedx/core/process_warnings.py:187-246 | reading the written report from top to bottom one meets every warning exactly once, under its category, location, message and file in this order, with the classes and counts of its groups, and with its own line number and count |
| HtmlReport.SectionsRead | openedx/core/write_to_html.py:88-98 | reading a written outline gives back what its sections show |
| HtmlReport.HtmlOutlineWriter.constructor | openedx/core/write_to_html.py:83-86 | a new writer has written the head and numbers from 0 |
| HtmlReport.HtmlOutlineWriter.StartSection | openedx/core/write_to_html.py:88-92 | a section opens with the next id |
| HtmlReport.HtmlOutlineWriter.EndSection | openedx/core/write_to_html.py:94-95 | a section closes |
| HtmlReport.HtmlOutlineWriter.Write | openedx/core/write_to_html.py:97-98 | text is appended |
| HtmlReport.WriteWarnings | openedx/core/process_warnings.py:226-243 | the innermost loop writes the warnings of a message |
| HtmlReport.WriteMessages | openedx/core/process_warnings.py:212-244 | the message level writes its part of the outline |
| HtmlReport.WriteLocations | openedx/core/process_warnings.py:198-245 | the location level writes its part of the outline |
| HtmlReport.WriteHtmlReport | openedx/core/process_warnings.py:187-246 | the nested loops driving the writer produce exactly the outline's text |
| Sessions.FileNamesDiffer | openedx/core/pytest_hooks.py:27-42 | different numbers give different file names |
| Sessions.SuitesDoNotCollide | openedx/core/pytest_hooks.py:27-42 | sessions of different suites never write the same file, also if one has no suite |
| Sessions.PytestSessionFinish | openedx/core/pytest_hooks.py:45-62 | the report goes to the first free number, to number 100 if none is free |
| Sessions.SessionsKeepReports | openedx/core/pytest_hooks.py:45-62 | from an empty directory no report is overwritten in the first 101 sessions; afterwards only file 100 is |
| Sessions.SessionFilesAreFound | openedx/core/process_warnings.py:92-101 | every file a session writes matches the reader's pattern |
| Sessions.IsWarningsFileIff | openedx/core/process_warnings.py:94-101 | a file is read exactly when its name holds the postfix, an optional underscore, digits and ".json" in a row |
| Sessions.ReadWarningData | openedx/core/process_warnings.py:79-116 | the rows of all matching files, file after file |
| Sessions.EverythingIsRead | openedx/core/process_warnings.py:79-116 | in whatever order files are listed, exactly the warnings of the reports that were not overwritten are read, each counting once |
| Sessions.MakeReport | openedx/core/process_warnings.py:249-257 | the script from directory to report: read, classify, compress, write the outline |
| Sessions.NothingIsLost | openedx/core/process_warnings.py:131-155 | end to end, after any number of sessions the report's counts add up to the warnings of all sessions if and only if no overwritten report held any, which is so up to 101 sessions; its rows are all different |
| Debounce.Debouncer.Wrapper | pavelib/assets.py:303-310 | a notification cancels the timer in the field and sets a new one |
| Debounce.Debouncer.CallBegins | pavelib/assets.py:304-305 | a timer that has run its time starts its call |
| Debounce.Debouncer.CallEnds | pavelib/assets.py:304-306 | a call that ends clears the field, whichever timer is in it |
| Debounce.RunKeepsInvariant | pavelib/assets.py:293-313 | in every run, timers, calls and what each call has seen fit together |
| Debounce.NoNotificationIsLost | pavelib/assets.py:293-313 | in every run, with calls overlapping or not, each notification was followed by a call or has a waiting timer set at or after it |
| Debounce.CallsAreDebounced | pavelib/assets.py:293-313 | if no call clears a newer timer: one waiting timer at most, calls at least `seconds` apart, each from the timer of the last notification and at least `seconds` after it; exactly `seconds` after it if timers are prompt |
| Debounce.TimersCarryArguments | pavelib/assets.py:303-310 | in every run there is one timer for each notification, in order and with its arguments |
| Debounce.CallGetsLastArguments | pavelib/assets.py:303-310 | if no call clears a newer timer, each call gets the arguments of the last notification before it starts |
| Debounce.AtomicRunIsClean | pavelib/assets.py:304-310 | if no notification comes in during a call, no call clears a newer timer, so all of that holds |
| Debounce.HarmlessIffClean | pavelib/assets.py:304-306 | the end of a call leaves later calls `seconds` apart, on every continuation, if and only if it does not clear a timer that still waits |
| Debounce.OverlappingCallsComeTooClose | pavelib/assets.py:304-308 | otherwise, for every interval of two or more, a run with two calls one time unit apart |
| Prereqs.PrereqCache.Run | pavelib/prereqs.py:90-123 | the task with its file truncated before the second fingerprint, in all error cases |
| Prereqs.StoredHashIsVouched | pavelib/prereqs.py:100-121 | over any edits and any installs that succeed or fail, the stored hash is absent, empty or the fingerprint of the files some successful install left |
| Prereqs.WhatATaskStores | pavelib/prereqs.py:106-123 | a task is skipped exactly when the current fingerprint is the stored one; a failed install leaves the stored hash alone |
| Prereqs.RecordedIff | pavelib/prereqs.py:109-121 | a task is recorded exactly when it is not skipped and reading, installing, making the directory and reading again all succeed; files and environment are what the installer left whenever it was called |
| Prereqs.RerunIsSkipped | pavelib/prereqs.py:118-121 | after a recorded install, also one that changed the files itself, all tasks up to the first edit are skipped and nothing changes, in every run |
| Prereqs.OnlyAttemptsInstall | pavelib/prereqs.py:110-121 | without a further install attempt environment and stored hash stay as they are, over any run |
| Prereqs.SkipIsSoundIff | pavelib/prereqs.py:110-123 | a skipped task finds the files as the recorded install left them, and the environment too if and only if the last attempt was that install or left the same environment |
| Prereqs.FailedInstallIsForgotten | pavelib/prereqs.py:110-123 | it can be skipped on any environment that a failed install left |
| Prereqs.Uninstaller.UninstallRound | pavelib/prereqs.py:240-247 | one round uninstalls, in list order, what the freeze showed, and tells whether it showed anything |
| Prereqs.Uninstaller.UninstallPythonPackages | pavelib/prereqs.py:207-257 | three rounds at most; the version is written exactly after a clean freeze, and nothing is done when it is already there or the variable is set |
| Prereqs.CleanShowsNone | pavelib/prereqs.py:239-257 | for any behaviour of pip, a recorded version means the last freeze showed none of the packages |
| Prereqs.CleanIffFewCopies | pavelib/prereqs.py:236-253 | if each uninstall removes one copy, n rounds end clean if and only if no listed package started with n or more copies; then all of them are gone and nothing else is |
| Prereqs.ListedPackagesAreDistinct | pavelib/prereqs.py:189-202 | no package is listed twice |
| Workers.LaunchWorkers | scripts/xdist/pytest_worker_manager.py:46-81 | the ids of the first attempt that is not throttled, after sleeping 2, 4, 8 and so on; 126 seconds at most |
| Workers.ReadInstances | scripts/xdist/pytest_worker_manager.py:96-101 | within a reservation, IPs of running instances and ids of the others are collected in order |
| Workers.ReadPoll | scripts/xdist/pytest_worker_manager.py:94-101 | likewise over all reservations, starting from an emptied list |
| Workers.AllConcat | scripts/xdist/pytest_worker_manager.py:95-96 | a description is all instances of its reservations, one reservation after the other |
| Workers.RunningIsExact | scripts/xdist/pytest_worker_manager.py:96-101 | an answered poll takes exactly the running instances as seen, in order, and waits for exactly the others |
| Workers.FinishedIff | scripts/xdist/pytest_worker_manager.py:103-109 | a poll ends the waiting exactly when it is answered and all described instances run |
| Workers.AwaitRunning | scripts/xdist/pytest_worker_manager.py:84-115 | succeeds exactly at the first of 120 polls that leaves nothing to wait for; polls that raise change nothing |
| Workers.PollsConserve | scripts/xdist/pytest_worker_manager.py:84-101 | after every poll, raised or answered, the ids seen running and those still waited for are together exactly the launched ids, each as often |
| Workers.DeleteReady | scripts/xdist/pytest_worker_manager.py:122-125 | deleting with shifted indices leaves exactly the unready IPs, in order |
| Workers.UnreadyIsExact | scripts/xdist/pytest_worker_manager.py:122-125 | those are the IPs at exactly the positions whose check did not return 0 |
| Workers.AwaitSsh | scripts/xdist/pytest_worker_manager.py:118-139 | succeeds exactly at the first of ten sweeps that leaves no IP, sleeping five seconds between sweeps |
| Workers.SweepsReach | scripts/xdist/pytest_worker_manager.py:120-125 | after every sweep an IP is still checked or was reachable once; those still checked are a subsequence of the given ones |
| Workers.SpinUpWorkers | scripts/xdist/pytest_worker_manager.py:46-152 | each outcome has its own cause, the two files hold the addresses and ids, and all phases together sleep at most 766 seconds |
| Workers.SpunWorkersAreReady | scripts/xdist/pytest_worker_manager.py:84-152 | success means one address for each launched instance, all seen running, all once reachable |
| Workers.TerminateFindsTheLaunched | scripts/xdist/pytest_worker_manager.py:154-161 | splitting the id file's line gives the launched ids back if and only if there are any and none holds a comma |
| MonthDelta.TargetIsDeltaAway | scripts/xblock/xblock_counts.py:42-44 | year and month reached are the only ones exactly delta months away |
| MonthDelta.ClampsLeastIff | scripts/xblock/xblock_counts.py:42-48 | within datetime's years the result is the latest valid date of the target month that is not later in its month, if and only if it is not the 29th or later for a February of a year divisible by 100 |
| MonthDelta.CenturyOutcome | scripts/xblock/xblock_counts.py:45-48 | in that case years divisible by 400 lose their 29th and others raise |
| MonthDelta.CenturyExamples | scripts/xblock/xblock_counts.py:45-48 | three dates that go wrong, one of them moved by no month at all |
| MonthDelta.Monotone | scripts/xblock/xblock_counts.py:42-48 | moving is monotone in the date and strictly monotone in the number of months |
| MonthDelta.TwoSteps | scripts/xblock/xblock_counts.py:42-48 | two steps reach the month of their sum, on the earlier day of the first step's and the single step's |
| MonthDelta.UndoneIff | scripts/xblock/xblock_counts.py:42-48 | going back undoes a move if and only if the table gives the target month that many days and the date is not the 29th of February of a year divisible by 400 |

## Left out

- Real processes, S3, EC2, sockets, sleeping, pip and the file system: their answers are parameters, arbitrary
  functions of the attempt or state.
- Regular expressions over log lines and file paths: log lines come parsed, and which of the five location
  patterns matches a file is a parameter. The pattern of warnings files is modelled.
- optparse's abbreviation matching, which is a parameter, its callbacks, options with nargs 0, the help and
  version options and the texts of errors.
- sha1: a digest is a parameter. Where a law needs it to tell different files apart, that is a hypothesis.
- DbCache.Workspace.ExtractFiles: what a failed extraction leaves behind is not stated, and the archive file
  that a failed download leaves in the cache folder is not modelled, because the task ends there.
- DbCache.Workspace.UploadDbCache: two uploads of one fingerprint at the same instant are not modelled; an
  upload's test and write are one step, as S3 does them on its side.
- Debounce.Debouncer.Wrapper: a timer that fires between the wrapper's test and its cancellation is not
  modelled; the wrapper is one step. A decorated function that raises, and so leaves the field set, is left out.
- Bisection.RoundHalfTiesToEven: the quotient is exact, which in Python holds for lists of fewer than 2^53 tests.
- Bisection.CommandReplaysList: file-name globbing by the shell is not modelled, so a test name with
  brackets is taken to stand for itself.
- Prereqs.PrereqCache.Run: renaming blanks in the cache name is left out; one cache is modelled.
- Warnings.CompressedRowsAreDifferent: Python takes 1 and True for equal in a row; the model does not.
- Warnings.GroupsPartition: rows hold strings in the grouping columns; Python's sort raises on a null among
  strings.
- Sessions.SessionsKeepReports: two sessions that end at the same moment are not modelled.
- Workers.SpinUpWorkers: the process pool and the number asked of EC2 are left out; the launch tells the ids.
- The printed messages, the formatted HTML around headings, and the wiring of Paver tasks.
- Settings modules, URL tables, setup files, documentation configuration: constants and registration.
- `pavelib/quality.py`, `servers.py`, `tests.py`, `i18n.py`, `docs.py`: shell command building, easy members only.
- The paging loop and the totals of `xblock_counts.py`: network-driven.
