# Concord child-process task and secret-store selection, in Dafny

This project models two pieces of the Concord workflow server.

The first is the `concord` task that a running process uses to start, fork,
kill and wait for child processes (`ConcordTask.java`). It covers:

- the `action` dispatch of `execute`;
- reading the task's configuration: `createJobCfg`, `getSet`, `getInstances`,
  `getOrg`, `getRepo`, the key choice of `archivePayload`, `createRequest`;
- starting a child or external process, with the synchronous variants that
  either wait in place or suspend the parent until the child ends, and the
  resumption (`start`, `suspend`, `continueAfterSuspend`);
- the fork fan-out (`fork`, `forkMany`, `forkOne`);
- the kill target list (`kill(ctx, cfg)`, `killMany`, `killOne`);
- the polling loop `waitForCompletion`;
- the failure report of `handleResults` / `getError`.

The second is the server's `SecretStoreProvider`: the lookup of the store for
a type, the list of enabled stores, and the parse of the configured default
store type.

Everything is pure functions over immutable values:

- A configuration or context is a `map<string, Value>`. `Value` is a sum type
  of the Java objects such maps hold: null, strings, UUIDs, Integer, Long,
  booleans, `String[]`, `UUID[]`, lists, other collections (a `Set`, say)
  and maps.
- Every remote call is answered by a `Service` value fixed in advance:
  - for each process, the status answers that each wait's successive status
    queries get, with the elapsed time of each. Every wait for a process
    replays the same answers from the first, so a resumed wait, or a second
    wait for a process listed twice, sees what the first wait saw;
  - the id a start request is given;
  - the ids successive fork requests are given;
  - the processes whose kill request fails;
  - whether registering a wait condition succeeds;
  - the `out.json` attachment of each process.
- A run of the task returns an `Outcome`: the context afterwards and the error
  raised, if any. Effects made before an error stay in the context, as they do
  in the Java code.

Modules, in dependency order:

- `Wrappers`: `Option`, `Result`.
- `Seqs`: two facts about sequences the inductive proofs use.
- `Text`: `split(",")`, `trim()` and ASCII `toUpperCase()` of java.lang.String.
- `Values`: `Value`, `Failure`, the typed getters, `Long.intValue()`.
- `Remote`: process statuses and the `Service` oracle.
- `TaskConfig`: configuration keys and readers, `createRequest`, the action names.
- `Waiter`: `waitForCompletion`.
- `Results`: `getError`, `handleResults`.
- `Launcher`: fork and kill.
- `Task`: the context, `start`, `suspend`, `continueAfterSuspend`, `execute`.
- `SecretStores`: `SecretStoreProvider`.

## Model

| member | source | states |
|---|---|---|
| Text.Trim | plugins/tasks/concord/src/main/java/com/walmartlabs/concord/client/ConcordTask.java:634 | `trim()` yields the slice of the string after its leading blanks with no blank at either end, and only blanks follow it |
| Text.JavaSplit | plugins/tasks/concord/src/main/java/com/walmartlabs/concord/client/ConcordTask.java:632-633 | `split(",")` yields pieces free of the separator; a string without the separator is a single piece; otherwise the pieces are the comma pieces with exactly the trailing empty ones dropped |
| Text.JavaSplitJoin | plugins/tasks/concord/src/main/java/com/walmartlabs/concord/client/ConcordTask.java:632-633 | joining the pieces of `split(",")` with commas gives the text back up to a run of trailing commas, and exactly back when it does not end in a comma |
| Text.JoinSplitAll | plugins/tasks/concord/src/main/java/com/walmartlabs/concord/client/ConcordTask.java:632-633 | joining the comma pieces of a string with commas gives the string back |
| Text.SplitAllJoin | plugins/tasks/concord/src/main/java/com/walmartlabs/concord/client/ConcordTask.java:632-633 | pieces free of commas, joined with commas and split again, are the same pieces |
| Text.TrimIdempotent | plugins/tasks/concord/src/main/java/com/walmartlabs/concord/client/ConcordTask.java:634 | trimming a trimmed string changes nothing |
| Values.IntValue | plugins/tasks/concord/src/main/java/com/walmartlabs/concord/client/ConcordTask.java:682-683 | a Long narrowed by `intValue()` is congruent to it modulo 2^32, and is unchanged when it fits in 32 bits |
| Values.GetList | plugins/tasks/concord/src/main/java/com/walmartlabs/concord/client/ConcordTask.java:426 | the `forks` list reads as null exactly when unset, as its elements exactly when it is a `List`, and anything else, another kind of collection included, is a type error naming the key; the elements are not cast here |
| TaskConfig.CreateJobCfg | plugins/tasks/concord/src/main/java/com/walmartlabs/concord/client/ConcordTask.java:508-537 | every job entry overrides the task setting of the same key; every other setting is kept, and no other key appears |
| TaskConfig.GetSet | plugins/tasks/concord/src/main/java/com/walmartlabs/concord/client/ConcordTask.java:621-643 | null configuration or unset key gives null; a string gives its trimmed comma pieces; any value other than a string, a `String[]` or a collection is rejected, and only such a value |
| TaskConfig.GetSetElements | plugins/tasks/concord/src/main/java/com/walmartlabs/concord/client/ConcordTask.java:636-639 | a `String[]` or a collection reads as exactly the set of its elements |
| TaskConfig.GetSetOfJoined | plugins/tasks/concord/src/main/java/com/walmartlabs/concord/client/ConcordTask.java:631-635 | a string built by joining comma-free pieces (the last non-empty) reads back as the set of the trimmed pieces |
| TaskConfig.GetInstances | plugins/tasks/concord/src/main/java/com/walmartlabs/concord/client/ConcordTask.java:675-692 | 1 when `instances` is absent; an Integer, or a Long narrowed to 32 bits, must be positive; any other value (null included) is not a number; a result lies in 1..2^31-1 |
| TaskConfig.GetOrg | plugins/tasks/concord/src/main/java/com/walmartlabs/concord/client/ConcordTask.java:645-656 | the configured `org` wins; without it the current project's organization is used |
| TaskConfig.GetRepo | plugins/tasks/concord/src/main/java/com/walmartlabs/concord/client/ConcordTask.java:658-668 | `repo` wins over the deprecated `repository` |
| TaskConfig.ArchivePayload | plugins/tasks/concord/src/main/java/com/walmartlabs/concord/client/ConcordTask.java:546-562 | `payload` wins over the deprecated `archive`; the chosen path must exist, or the start fails naming it; neither key gives no archive |
| TaskConfig.OrgIgnoresProject | plugins/tasks/concord/src/main/java/com/walmartlabs/concord/client/ConcordTask.java:645-649 | a configured `org` string is the answer whatever the current project's organization |
| TaskConfig.RepoShadowsRepository | plugins/tasks/concord/src/main/java/com/walmartlabs/concord/client/ConcordTask.java:658-662 | with `repo` a string, removing or changing the deprecated `repository` leaves the answer unchanged |
| TaskConfig.RepositoryActsAsRepo | plugins/tasks/concord/src/main/java/com/walmartlabs/concord/client/ConcordTask.java:663-667 | without `repo`, the deprecated `repository` gives what the same value under `repo` would, and a wrong type names `repository` |
| TaskConfig.PayloadShadowsArchive | plugins/tasks/concord/src/main/java/com/walmartlabs/concord/client/ConcordTask.java:547-548 | with `payload` a string, removing or changing the deprecated `archive` leaves the answer unchanged |
| TaskConfig.ArchiveActsAsPayload | plugins/tasks/concord/src/main/java/com/walmartlabs/concord/client/ConcordTask.java:548-562 | without `payload`, the deprecated `archive` gives what the same value under `payload` would; a missing path is reported by its name and a wrong type names `archive` |
| TaskConfig.ExclusiveExec | plugins/tasks/concord/src/main/java/com/walmartlabs/concord/client/ConcordTask.java:589-592 | `exclusiveExec` goes into the request only when the key holds a value, and then as that flag |
| TaskConfig.Arguments | plugins/tasks/concord/src/main/java/com/walmartlabs/concord/client/ConcordTask.java:599-602 | `arguments` goes into the request only when it is a non-empty map |
| TaskConfig.OutExpressions | plugins/tasks/concord/src/main/java/com/walmartlabs/concord/client/ConcordTask.java:612-615 | `outVars` goes into the request only when it is a non-empty collection; any other value fails the cast |
| TaskConfig.CreateRequest | plugins/tasks/concord/src/main/java/com/walmartlabs/concord/client/ConcordTask.java:576-618 | the request fails exactly when one of its readers fails; each entry is present only when its value is present, non-empty or true |
| TaskConfig.CreateRequestReadsOnly | plugins/tasks/concord/src/main/java/com/walmartlabs/concord/client/ConcordTask.java:576-618 | two configurations that agree on the eight keys the request reads give the same request or the same error |
| TaskConfig.CreateRequestIgnores | plugins/tasks/concord/src/main/java/com/walmartlabs/concord/client/ConcordTask.java:576-618 | removing or changing any other key leaves the request unchanged |
| TaskConfig.ActionNamed | plugins/tasks/concord/src/main/java/com/walmartlabs/concord/client/ConcordTask.java:672 | a name denotes an action exactly when it spells that action's constant |
| TaskConfig.ParseAction | plugins/tasks/concord/src/main/java/com/walmartlabs/concord/client/ConcordTask.java:670-673 | the trimmed, upper-cased text names the action, and any other text is rejected |
| TaskConfig.ParseActionName | plugins/tasks/concord/src/main/java/com/walmartlabs/concord/client/ConcordTask.java:670-673 | an action name in lower case, padded with blanks, reads back as that action |
| Waiter.AwaitOne | plugins/tasks/concord/src/main/java/com/walmartlabs/concord/client/ConcordTask.java:166-197 | a process's loop returns an observed entry whose status is FAILED, FINISHED or CANCELLED; a timeout names the process and an observed running time past the limit |
| Remote.StatusNameInjective | plugins/tasks/concord/src/main/java/com/walmartlabs/concord/client/ConcordTask.java:365 | distinct statuses have distinct names, so a status is told by its name |
| Results.FailedStatusByName | plugins/tasks/concord/src/main/java/com/walmartlabs/concord/client/ConcordTask.java:92-99 | the membership test on the status name picks exactly FAILED, CANCELLED and TIMED_OUT |
| Results.FailedVersusStopped | plugins/tasks/concord/src/main/java/com/walmartlabs/concord/client/ConcordTask.java:179 | FAILED and CANCELLED both fail a child and stop the polling; FINISHED only stops it; TIMED_OUT fails a child but never stops the polling |
| Waiter.WaitFor | plugins/tasks/concord/src/main/java/com/walmartlabs/concord/client/ConcordTask.java:163-200 | on return there is exactly one entry per id, each with a stopping status; an error comes from one id's loop; a timeout only with a positive limit that elapsed |
| Waiter.AwaitOneStops | plugins/tasks/concord/src/main/java/com/walmartlabs/concord/client/ConcordTask.java:177-181 | the loop returns the entry of the first poll with a stopping status |
| Waiter.AwaitOneTimesOut | plugins/tasks/concord/src/main/java/com/walmartlabs/concord/client/ConcordTask.java:183-189 | the loop times out at the first running poll whose elapsed time reaches a positive limit |
| Waiter.TimedOutOnlyLeavesByTimeout | plugins/tasks/concord/src/main/java/com/walmartlabs/concord/client/ConcordTask.java:177-191 | a process reported TIMED_OUT never leaves the loop normally; without a limit it never times out either |
| Waiter.AllFinished | plugins/tasks/concord/src/main/java/com/walmartlabs/concord/client/ConcordTask.java:163-200 | when every process reports FINISHED in time, the wait returns them all as FINISHED |
| Waiter.WaitForAllOk | plugins/tasks/concord/src/main/java/com/walmartlabs/concord/client/ConcordTask.java:163-200 | the wait succeeds when each process's loop succeeds |
| Results.GetError | plugins/tasks/concord/src/main/java/com/walmartlabs/concord/client/ConcordTask.java:390-402 | no metadata, no output or no last-error entry gives an empty detail; a map entry is the detail; a failure can only come from an output or entry of the wrong shape, or an entry bound to null |
| Results.Suffix | plugins/tasks/concord/src/main/java/com/walmartlabs/concord/client/ConcordTask.java:368-371 | the error suffix is empty exactly when the detail is empty |
| Results.FailingIds | plugins/tasks/concord/src/main/java/com/walmartlabs/concord/client/ConcordTask.java:363-366 | the visited ids with a FAILED, CANCELLED or TIMED_OUT status, and only those; visiting each id once reports each failed id once |
| Results.FailingIdsConcat | plugins/tasks/concord/src/main/java/com/walmartlabs/concord/client/ConcordTask.java:363-366 | the failed ids of a concatenation are those of the first part followed by those of the second, so the visiting order is kept |
| Results.FailingIdsCons | plugins/tasks/concord/src/main/java/com/walmartlabs/concord/client/ConcordTask.java:363-366 | the failed ids of a list are its head, when that child failed, followed by the failed ids of the rest |
| Results.ErrorLines | plugins/tasks/concord/src/main/java/com/walmartlabs/concord/client/ConcordTask.java:361-381 | with failures ignored there are no report lines; otherwise there is one line per failed entry |
| Results.ErrorLinesNameFailures | plugins/tasks/concord/src/main/java/com/walmartlabs/concord/client/ConcordTask.java:367-379 | line i is exactly "Child process <id> <status> " of the i-th failed entry, then the suffix rendered from its error detail, then a newline |
| Results.LineWithoutDetail | plugins/tasks/concord/src/main/java/com/walmartlabs/concord/client/ConcordTask.java:367-371 | the line of a child with an empty error detail is "Child process <id> <status> " and a newline, with no suffix |
| Results.ErrorLinesFailIff | plugins/tasks/concord/src/main/java/com/walmartlabs/concord/client/ConcordTask.java:366-367 | building the report fails exactly when a failed entry's detail cannot be read |
| Results.HandleResults | plugins/tasks/concord/src/main/java/com/walmartlabs/concord/client/ConcordTask.java:359-387 | with readable details it raises if and only if some entry failed and failures are not ignored; the message is the concatenated report lines; without failed entries it passes; any other error comes from reading `ignoreFailures` or an error detail |
| Results.HandleResultsReportsEach | plugins/tasks/concord/src/main/java/com/walmartlabs/concord/client/ConcordTask.java:359-387 | with failures not ignored and readable details, the message has exactly one line per failed child, none twice, each that child's exact line, and is raised exactly when some child failed |
| Results.OnlyFailuresReported | plugins/tasks/concord/src/main/java/com/walmartlabs/concord/client/ConcordTask.java:363-366 | entries that did not fail never contribute to the report, wherever they are visited |
| Results.FailedWithoutDetail | plugins/tasks/concord/src/main/java/com/walmartlabs/concord/client/ConcordTask.java:367-371 | a failed child without metadata is reported as "Child process <id> <status> \n" |
| Results.IgnoredFailure | plugins/tasks/concord/src/main/java/com/walmartlabs/concord/client/ConcordTask.java:362-376 | with `ignoreFailures` set, a FAILED and a FINISHED child complete without an error |
| Launcher.ForkCfg | plugins/tasks/concord/src/main/java/com/walmartlabs/concord/client/ConcordTask.java:442-444 | a fork's configuration is parented to this process's id, holds every entry of a map job, keeps every task setting the job does not override (all of them for a null job), and has no other key |
| Launcher.PrepareFork | plugins/tasks/concord/src/main/java/com/walmartlabs/concord/client/ConcordTask.java:461-468 | a configuration without the `entryPoint` key is rejected before anything else; otherwise the request and the sync flag are read |
| Launcher.ForkOne | plugins/tasks/concord/src/main/java/com/walmartlabs/concord/client/ConcordTask.java:456-477 | a fork is given the id the service hands out next, or fails as its preparation does |
| Launcher.ForkInstances | plugins/tasks/concord/src/main/java/com/walmartlabs/concord/client/ConcordTask.java:446-450 | a job makes at most n forks, exactly n without a failure, all tagged with the job, with ids taken in order from the service |
| Launcher.ForkJobs | plugins/tasks/concord/src/main/java/com/walmartlabs/concord/client/ConcordTask.java:439-454 | the fork ids are a prefix of the ids the service hands out, and the forks appear in job order |
| Launcher.ForkCfgs | plugins/tasks/concord/src/main/java/com/walmartlabs/concord/client/ConcordTask.java:442-444 | one configuration per element up to the first element that is neither a map nor null, each built as `ForkCfg` builds it |
| Launcher.JobPrefix | plugins/tasks/concord/src/main/java/com/walmartlabs/concord/client/ConcordTask.java:442 | the for-each's cast accepts every element before this position and rejects the element at it, if any |
| Launcher.ForkMany | plugins/tasks/concord/src/main/java/com/walmartlabs/concord/client/ConcordTask.java:439-454 | the fork ids are a prefix of the service's ids, every fork belongs to an element the cast accepts, the forks appear in job order, and a run without a failure had only maps or nulls in the list |
| Launcher.ForkJobsLayout | plugins/tasks/concord/src/main/java/com/walmartlabs/concord/client/ConcordTask.java:439-454 | without a failure each job's forks form one contiguous block, as long as its instance count, at the running sum of the earlier jobs' counts |
| Launcher.ForkJobsValidInstances | plugins/tasks/concord/src/main/java/com/walmartlabs/concord/client/ConcordTask.java:446 | without a failure every job named a valid instance count |
| Launcher.ForkManyLayout | plugins/tasks/concord/src/main/java/com/walmartlabs/concord/client/ConcordTask.java:439-454 | without a failure every element was forked, the number of ids is the sum of the jobs' instance counts, and job j's ids sit between the sums before j and up to j |
| Launcher.MissingEntryPointSendsNothing | plugins/tasks/concord/src/main/java/com/walmartlabs/concord/client/ConcordTask.java:460-462 | a job without `entryPoint` fails before any of its fork requests is sent |
| Launcher.NonJobStopsFork | plugins/tasks/concord/src/main/java/com/walmartlabs/concord/client/ConcordTask.java:442 | an element that is neither a map nor null stops the fan-out there: the elements before it are forked as if the list ended at it, and the cast's error is raised unless one of their forks failed first |
| Launcher.NullJobIsTaskSettings | plugins/tasks/concord/src/main/java/com/walmartlabs/concord/client/ConcordTask.java:532-534 | a null element forks with the task's own settings, as an unset `forks` list does |
| Launcher.ForkManyUnfailed | plugins/tasks/concord/src/main/java/com/walmartlabs/concord/client/ConcordTask.java:439-454 | a fan-out without a failure cast every element and is the fan-out over all their configurations |
| Launcher.ForkAction | plugins/tasks/concord/src/main/java/com/walmartlabs/concord/client/ConcordTask.java:425-437 | an unreadable `forks` value or an empty list is rejected with nothing forked; an unset one means a single job built from the task's settings; otherwise the listed elements are forked in turn |
| Launcher.IdsOf | plugins/tasks/concord/src/main/java/com/walmartlabs/concord/client/ConcordTask.java:213-220 | a collection gives its string and UUID elements in order, and is rejected exactly when some element is neither |
| Launcher.KillTargets | plugins/tasks/concord/src/main/java/com/walmartlabs/concord/client/ConcordTask.java:202-226 | a single string or UUID gives one id; an array gives its elements; a collection is read by its elements; any other shape, null included, is rejected |
| Launcher.KillOne | plugins/tasks/concord/src/main/java/com/walmartlabs/concord/client/ConcordTask.java:495-506 | a refused kill fails; an asynchronous kill succeeds; an unreadable `sync` fails naming it; a synchronous kill fails exactly when the bounded wait for the process fails, and with the wait's error |
| Launcher.KillEach | plugins/tasks/concord/src/main/java/com/walmartlabs/concord/client/ConcordTask.java:490-492 | the killed processes are a prefix of the list; with no failing kill all are killed and nothing is raised; otherwise the first failing kill's error is raised and the processes before it, plus that one when its kill request was sent, are killed |
| Launcher.FirstFailedKill | plugins/tasks/concord/src/main/java/com/walmartlabs/concord/client/ConcordTask.java:490-492 | the position of the first process whose kill fails, every earlier kill succeeding, or the list's length when none fails |
| Launcher.KillEachAllOk | plugins/tasks/concord/src/main/java/com/walmartlabs/concord/client/ConcordTask.java:490-492 | the kill loop raises nothing exactly when every process's kill succeeds, and then kills them all |
| Launcher.KillEachConcat | plugins/tasks/concord/src/main/java/com/walmartlabs/concord/client/ConcordTask.java:490-492 | killing a concatenation kills the first part, and goes on to the second part only when the first raised nothing |
| Launcher.KillMany | plugins/tasks/concord/src/main/java/com/walmartlabs/concord/client/ConcordTask.java:485-493 | an empty id list is rejected and nothing is killed |
| Launcher.Kill | plugins/tasks/concord/src/main/java/com/walmartlabs/concord/client/ConcordTask.java:202-226 | an unreadable target list kills nothing; otherwise every target is killed in turn |
| Launcher.KillWaitTimeoutIsRaised | plugins/tasks/concord/src/main/java/com/walmartlabs/concord/client/ConcordTask.java:502-505 | a synchronous kill whose wait runs past the kill timeout raises that timeout after both kill requests were sent |
| Task.StrList | plugins/tasks/concord/src/main/java/com/walmartlabs/concord/client/ConcordTask.java:302-303 | the stored `jobs` list holds the ids, in order, as strings |
| Task.StringsOf | plugins/tasks/concord/src/main/java/com/walmartlabs/concord/client/ConcordTask.java:327 | a list reads as strings exactly when all its elements are strings |
| Task.JobsOf | plugins/tasks/concord/src/main/java/com/walmartlabs/concord/client/ConcordTask.java:327-328 | the stored children can be resumed only as a non-empty list of strings |
| Task.JobsRoundTrip | plugins/tasks/concord/src/main/java/com/walmartlabs/concord/client/ConcordTask.java:302-328 | ids stored in `jobs` read back unchanged on resumption |
| Task.GetAction | plugins/tasks/concord/src/main/java/com/walmartlabs/concord/client/ConcordTask.java:670-673 | the `action` variable must be a string, which is then parsed as an action name |
| Task.UnknownActionRejected | plugins/tasks/concord/src/main/java/com/walmartlabs/concord/client/ConcordTask.java:670-673 | an `action` naming none of the four actions, after trimming and upper-casing, is rejected with that name and changes nothing |
| Task.StartInputOf | plugins/tasks/concord/src/main/java/com/walmartlabs/concord/client/ConcordTask.java:242-281 | a start is accepted exactly when every reader succeeds and there is a payload or a project; an accepted start carries the existing payload, the project, the request `createRequest` builds, and the org, repo, branch and commit the readers give; neither payload nor project is rejected |
| Task.StartNeedsPayloadOrProject | plugins/tasks/concord/src/main/java/com/walmartlabs/concord/client/ConcordTask.java:248-252 | a start with neither payload nor project is rejected and leaves the context unchanged |
| Task.OutVars | plugins/tasks/concord/src/main/java/com/walmartlabs/concord/client/ConcordTask.java:316-320 | the child's output variables are fetched only when `outVars` is a key; a missing attachment gives the empty map |
| Task.Finish | plugins/tasks/concord/src/main/java/com/walmartlabs/concord/client/ConcordTask.java:313-320 | a blocking wait has no time limit and never times out; it succeeds exactly when the wait and the result check do, and only then sets `jobOut` |
| Task.Suspend | plugins/tasks/concord/src/main/java/com/walmartlabs/concord/client/ConcordTask.java:341-357 | a registered wait condition sets the marker to true and parks the process on the resume event; every other variable keeps its key and value and nothing else in the context changes; a refused registration changes nothing |
| Task.Launched | plugins/tasks/concord/src/main/java/com/walmartlabs/concord/client/ConcordTask.java:302-321 | the new id is stored in `jobs`; an asynchronous start ends there; a synchronous one suspends or waits as `suspend` says |
| Task.StartProcess | plugins/tasks/concord/src/main/java/com/walmartlabs/concord/client/ConcordTask.java:241-322 | nothing changes unless the configuration is valid and the service starts the process |
| Task.ContinueAfterSuspend | plugins/tasks/concord/src/main/java/com/walmartlabs/concord/client/ConcordTask.java:325-339 | a resumption with no stored children fails; a successful one sets `jobOut` from the first child and removes the marker; a failed one changes nothing |
| Task.ForkProcesses | plugins/tasks/concord/src/main/java/com/walmartlabs/concord/client/ConcordTask.java:425-437 | a failed fork leaves the context unchanged; otherwise `jobs` holds the forked ids, which are a prefix of the ids the service handed out |
| Task.Execute | plugins/tasks/concord/src/main/java/com/walmartlabs/concord/client/ConcordTask.java:105-131 | START with the marker resumes, and without it starts a child; STARTEXTERNAL needs `apiKey`; FORK forks as `fork` does; KILL kills the targets of the task's settings; an invalid action changes nothing |
| Task.NextStartLaunchesAnew | plugins/tasks/concord/src/main/java/com/walmartlabs/concord/client/ConcordTask.java:108-113 | after a completed resumption the next START starts a new child |
| Task.ParkedReadsBack | plugins/tasks/concord/src/main/java/com/walmartlabs/concord/client/ConcordTask.java:302-354 | a parked context still names its action, carries the marker, and holds the started child |
| Task.SuspendResumeMatchesBlocking | plugins/tasks/concord/src/main/java/com/walmartlabs/concord/client/ConcordTask.java:305-339 | suspending then resuming gives the same error as waiting in place, and on success the same context; a failed resumption keeps the marker |
| Task.ResumedStep | plugins/tasks/concord/src/main/java/com/walmartlabs/concord/client/ConcordTask.java:325-339 | resuming a parked start waits for the stored child as the blocking start would |
| SecretStores.NewProvider | server/impl/src/main/java/com/walmartlabs/concord/server/org/secret/provider/SecretStoreProvider.java:39-46 | the default store name is accepted exactly when its upper-cased form names a store type, which becomes the default |
| SecretStores.DefaultTypeIgnoresCase | server/impl/src/main/java/com/walmartlabs/concord/server/org/secret/provider/SecretStoreProvider.java:45 | the default store name gives the same verdict and the same provider in lower case, in upper case and as written |
| Text.UpperIdempotent | server/impl/src/main/java/com/walmartlabs/concord/server/org/secret/provider/SecretStoreProvider.java:45 | upper-casing an upper-cased name changes nothing |
| SecretStores.FirstOfType | server/impl/src/main/java/com/walmartlabs/concord/server/org/secret/provider/SecretStoreProvider.java:49-50 | the position of the first store of a type, if any; no earlier store has the type |
| SecretStores.GetSecretStore | server/impl/src/main/java/com/walmartlabs/concord/server/org/secret/provider/SecretStoreProvider.java:48-60 | a returned store is registered, enabled and of the requested type; the lookup is not found exactly when no store has the type |
| SecretStores.GetSecretStoreIsFirst | server/impl/src/main/java/com/walmartlabs/concord/server/org/secret/provider/SecretStoreProvider.java:48-60 | the lookup decides on the first store of the type alone: that store if enabled, otherwise not enabled |
| SecretStores.DisabledFirstShadows | server/impl/src/main/java/com/walmartlabs/concord/server/org/secret/provider/SecretStoreProvider.java:50-55 | a disabled first store of a type makes the lookup fail even though a later store of that type is enabled |
| SecretStores.ActiveSecretStores | server/impl/src/main/java/com/walmartlabs/concord/server/org/secret/provider/SecretStoreProvider.java:62-72 | a store is listed exactly when it is registered and enabled |
| SecretStores.ActiveOfConcat | server/impl/src/main/java/com/walmartlabs/concord/server/org/secret/provider/SecretStoreProvider.java:62-72 | filtering keeps the stores' relative order: the active stores of a concatenation are the concatenation of the parts' active stores |
| SecretStores.ActiveIdempotent | server/impl/src/main/java/com/walmartlabs/concord/server/org/secret/provider/SecretStoreProvider.java:62-72 | the active stores of the active stores are the same list |
| SecretStores.FoundIsActive | server/impl/src/main/java/com/walmartlabs/concord/server/org/secret/provider/SecretStoreProvider.java:48-72 | a store the lookup returns is among the active stores |
| SecretStores.LookupMatchesActive | server/impl/src/main/java/com/walmartlabs/concord/server/org/secret/provider/SecretStoreProvider.java:48-72 | with one store per type, the lookup succeeds exactly when an active store has the type |

## Left out

- Remote calls (start, fork, kill, status query, wait condition, `out.json` download) are answered by the `Service` value. The retries of `ClientUtils.withRetry` are folded into one answer per call, and `listSubprocesses` is not modelled.
- A non-404 error of the `out.json` download is not modelled: the attachment is either there or missing.
- `getStartAt` is not modelled, nor the `startAt` field of the start request: it formats dates through a library call.
- `archivePayload` keeps only the key choice and the check that the path exists. Resolving against the working directory, zipping a directory and reading the file bytes are file-system work.
- The clock and `Thread.sleep` are replaced by the elapsed time recorded with each status answer.
- `parallelStream` polling is modelled one id after another, in list order, and the first failing id's error is the one raised. Concurrent threads could raise another id's error first. They also write their entries into a plain `HashMap` without synchronization, so the real result map can lose entries. Waiter.WaitFor's one entry per id holds for the sequential model only.
- Waiter.AwaitOne: a supplied status trace that ends before the process stops gives `StillWaiting`. The real loop would keep polling.
- Results.HandleResults: the Java map's iteration order is a parameter, an enumeration of its keys. The task flows use the ids' first-occurrence order, so the order of report lines in the real message may differ.
- Results.Suffix: how the error detail map is printed is a parameter `show`, since `Map.toString()` depends on hash order.
- Waiter.WaitFor: the terminal set of the loop leaves out TIMED_OUT while the failure set of `handleResults` includes it. This is modelled as written; `Waiter.TimedOutOnlyLeavesByTimeout` shows its consequence.
- Launcher.KillOne: a timeout while waiting for a killed process is raised as an error and stops the remaining kills; the kill request for that process was already sent.
- The task's base configuration, `createCfg` of the base class, is not part of this model. Its results are the `jobBase` and `taskCfg` fields of the context.
- The `MapUtils`/`ContextUtils` getters are not part of this model. They are read as follows:
  - an unset or null key gives the default;
  - a value of the expected type is returned;
  - any other value is a `WrongType` error.
  `assertString` is read as "must be a string".
- `assertUUID` and `UUID.fromString` are not modelled: ids are carried as text, and a malformed id is not detected.
- `toUpperCase()` is modelled for ASCII letters only. Java's locale and Unicode case mapping is not modelled.
- Task.JobsOf: every malformed stored `jobs` value gives one `MissingJobs` error. The Java code fails with a null pointer, a failed cast or an index error, depending on the shape.
- The constructor's null default-store name (a null pointer in Java) is not modelled; the name is a string.
- `getDefaultStoreType` and `getMaxSecretDataSize` are plain field reads of `Provider`.
- Logging is not modelled.
