# henry report assembly, modelled in Dafny

henry inspects a Looker instance and prints health and usage tables. Its
three commands share one shape. `analyze` has projects, models and explores
reports. `vacuum` has models and explores reports that list what is unused.
`pulse` runs a set of checks. Each report has two loops. A fan-out loop walks
the subjects (projects, models, explores, connections) and appends one
partial dict per subject. Some cells of that dict are copied from the
subject, some are computed on the spot, and some hold a future submitted to
a thread pool. A resolution loop then replaces each future by its result,
derives counts or sorted name lists from it, and deletes the helper keys.

This project models that logic:

- `outcomes.dfy` (`Outcomes`): exceptions as `Err`. `Collect` runs steps in order and stops at the first failure.
- `seqs.dfy` (`Seqs`): `filter` and `sum(map(...))` over lists.
- `text.dfy` (`Text`): `startswith`, `in` on strings, Python's string order, `sorted` on a list and on the keys of a dict, and `"\n".join` with its inverse `split`.
- `looker.dfy` (`Looker`): the SDK entities, row cells (`Concrete` value or `Pending` future handle), the tasks submitted to the pool, and the `Instance` that answers calls.
- `analyze.dfy` (`Analyze`), `vacuum.dfy` (`Vacuum`), `pulse.dfy` (`Pulse`): the three commands.

A future is a `Pending(h)` cell. Its handle `h` is its position in the
report's submission order. Its outcome comes from a function of the handle,
one function per kind of future, so the proofs hold for every way the remote
calls can turn out. Synchronous remote calls are functions of their
arguments. Each report method returns its table and the list of tasks it
submitted. The table is proved equal to a closed-form reference function,
and the task list to the reference batch whenever the fan-out completes.
The properties are proved about those functions. `check_legacy_features`
has no loop and submits nothing, so it is modelled by the function
`Pulse.LegacyFeatures` alone.

Three behaviours of the code that the model keeps as written:

- `analyze models` and `analyze explores` look up Query Count under the name the fan-out loop variable still holds. That is the name of the LAST subject, for every row. Each row was presumably meant to use its own subject's name, as `vacuum models` does (vacuum.py:36).
- `vacuum` with a subcommand other than `models` or `explores` leaves `result` unbound. The call fails with `UnboundLocalError`, not a usage error.
- No loop in the modelled code swallows an exception. A failed future re-raises when its result is taken, and that aborts the whole report.

## Model

| member | source | states |
|---|---|---|
| `Analyze.Run` | henry/commands/analyze.py:10-24 | `projects`, `models` and `explores` run the matching report on the subjects the instance lists for the given filters; any other subcommand is `ValueError` with the usage message |
| `Analyze.AnalyzeUnknownSubcommand` | henry/commands/analyze.py:13-23 | a table is produced only for the three subcommands; every other subcommand gives exactly the usage error |
| `Analyze.Projects` | henry/commands/analyze.py:26-69 | the projects method returns exactly the reference projects table and submits exactly the reference batch |
| `Analyze.SubmitProject` | henry/commands/analyze.py:33-56 | one fan-out step: failed `isinstance` asserts give `AssertionError`, a missing remote URL gives `TypeError`, otherwise the partial row and the one or two tasks the project submits |
| `Analyze.FanOutProjects` | henry/commands/analyze.py:33-56 | the fan-out loop fails exactly when some project's step fails, with the first failure; otherwise one partial row per project, in order, each holding handles into the batch |
| `Analyze.ResolveProjectRow` | henry/commands/analyze.py:61-68 | resolving a partial row gives the reference row: git status awaited only when pending, file counts by type, helper keys removed |
| `Analyze.ResolveProjects` | henry/commands/analyze.py:60-68 | the resolution loop yields the reference rows, or the first failure in row order |
| `Analyze.ProjectsBatchSize` | henry/commands/analyze.py:37-46 | the number of futures submitted is the number of projects plus the number of non-bare projects |
| `Analyze.ProjectsBatchLayout` | henry/commands/analyze.py:37-46 | project k's file listing sits at its handle, followed by its git-test task exactly when it is not bare |
| `Analyze.ProjectsBatchPrefix` | henry/commands/analyze.py:37-46 | the tasks submitted for the first j projects are a prefix of the whole batch, so a handle never moves |
| `Analyze.ProjectsOneRowPerProject` | henry/commands/analyze.py:33-56 | a finished table has one row per project, in order, with exactly the report's columns, no future left, and Project, PR Mode and Is Validation Required copied from the project |
| `Analyze.ProjectsRowIs` | henry/commands/analyze.py:60-68 | row k of a finished table is the reference row of project k |
| `Analyze.ProjectsFileCounts` | henry/commands/analyze.py:63-67 | `# Models` and `# View Files` count the files of type "model" and "view" in that project's own listing, and together never exceed the listing |
| `Analyze.ProjectsGitStatus` | henry/commands/analyze.py:39-62 | a remote URL containing "/bare_models/" gives the literal status and submits no git task; any other URL gives the result of the project's own git-test future |
| `Analyze.ProjectsRowsExtend` | henry/commands/analyze.py:37-56 | appending a project's partial row adds its tasks to the batch and keeps every row's file-listing handle in place |
| `Analyze.ProjectStepShape` | henry/commands/analyze.py:33-53 | a project that passes the asserts yields its own name, PR mode and validation flag |
| `Analyze.ProjectRowShape` | henry/commands/analyze.py:48-68 | a finished project row has exactly the report's columns, no future left, and Project, PR Mode and Is Validation Required from its entry |
| `Analyze.ProjectsFailureAborts` | henry/commands/analyze.py:61-68 | one failing file listing leaves no table at all |
| `Analyze.Models` | henry/commands/analyze.py:71-102 | the models method returns exactly the reference models table and batch |
| `Analyze.SubmitModel` | henry/commands/analyze.py:80-95 | one fan-out step: a failed assert gives `AssertionError`, otherwise the partial row with `# Explores` = the number of explores, and two tasks appended |
| `Analyze.FanOutModels` | henry/commands/analyze.py:80-95 | the fan-out loop gives one partial row per model or the first failure, and returns the name left in the loop variable (the last model's) |
| `Analyze.ResolveModelRow` | henry/commands/analyze.py:100-101 | the unused-explores list is awaited and counted, then the usage map is awaited and looked up under the loop variable's name with `or 0` |
| `Analyze.ResolveModels` | henry/commands/analyze.py:99-101 | the resolution loop yields the reference rows, or the first failure in row order |
| `Analyze.ModelsBatchLayout` | henry/commands/analyze.py:84-86 | model k submits its unused-explores task at handle 2k and a usage task at 2k+1 |
| `Analyze.GetOrZero` | henry/commands/analyze.py:101 | `d.get(key) or 0` on a dict of counts, where a stored 0 and a missing key both give 0 (its properties: `GetOrZeroIsGetDefault`) |
| `Analyze.GetOrZeroIsGetDefault` | henry/commands/analyze.py:101 | `d.get(key) or 0` equals the lookup with default 0 |
| `Analyze.ModelsRowIs` | henry/commands/analyze.py:99-101 | row k of a finished table is the reference row of model k, with the last model's name as lookup key |
| `Analyze.ModelsCells` | henry/commands/analyze.py:87-101 | every cell of row k: Project, Model and `# Explores` from the model; `# Unused Explores` is the length of its own future's list; Query Count is looked up under the last model's name |
| `Analyze.ModelRowShape` | henry/commands/analyze.py:87-101 | a finished model row has exactly the report's columns, each derived from its entry, its two futures and the lookup name |
| `Analyze.ModelsSubmitted` | henry/commands/analyze.py:84-86 | model k's unused-explores task carries its own name, followed by a usage task |
| `Analyze.ModelsRowsExtend` | henry/commands/analyze.py:84-95 | appending a model's partial row adds its two tasks to the batch and keeps every row's handles at 2k and 2k+1 |
| `Analyze.ModelsFailureAborts` | henry/commands/analyze.py:99-101 | one failing future of any model leaves no table at all |
| `Analyze.ModelsQueryCountLeak` | henry/commands/analyze.py:101 | for models "a" and "b" with usage {"a": 5}, row "a" shows Query Count 0 |
| `Analyze.HasDescription` | henry/commands/analyze.py:126 | Has Description holds exactly when a non-empty description is present |
| `Analyze.Explores` | henry/commands/analyze.py:104-145 | the explores method returns exactly the reference explores table and batch |
| `Analyze.SubmitExplore` | henry/commands/analyze.py:113-132 | one fan-out step: failed asserts give `AssertionError`, a failed field-stats call propagates, otherwise the partial row with field counts and two tasks appended |
| `Analyze.FanOutExplores` | henry/commands/analyze.py:113-132 | the fan-out loop gives one partial row per explore or the first failure, and returns the last explore's name |
| `Analyze.ResolveExploreRow` | henry/commands/analyze.py:136-143 | join stats are awaited before query stats; joins are counted and filtered, the query count looked up under the loop variable's name, and both helper keys are removed |
| `Analyze.ResolveExplores` | henry/commands/analyze.py:136-143 | the resolution loop yields the reference rows, or the first failure in row order |
| `Analyze.ExploresBatchLayout` | henry/commands/analyze.py:118-120 | explore k submits its join-stats task at handle 2k and its query-stats task at 2k+1 |
| `Analyze.ExploresRowIs` | henry/commands/analyze.py:136-143 | row k of a finished table is the reference row of explore k |
| `Analyze.ExploreRowShape` | henry/commands/analyze.py:121-141 | a finished explore row has exactly the report's columns, each as derived from its entry and its two futures |
| `Analyze.ExploreStepShape` | henry/commands/analyze.py:114-128 | an explore that passes the asserts and the field-stats call yields its name, model, hidden flag, description truthiness and field stats |
| `Analyze.ExploresFieldCells` | henry/commands/analyze.py:121-128 | Model, Explore and Is Hidden are copied, Has Description is the truthiness of the description, `# Fields` and `# Unused Fields` count the field stats and the filtered field stats |
| `Analyze.ExploresFutureCells` | henry/commands/analyze.py:137-141 | `# Joins` and `# Unused Joins` count the explore's own join stats, raw and filtered; Query Count is looked up under the last explore's name, default 0 |
| `Analyze.ExploresSubmitted` | henry/commands/analyze.py:117-120 | explore k's two tasks carry its model, its name and the field stats computed for it |
| `Analyze.ExploresRowsExtend` | henry/commands/analyze.py:117-132 | appending an explore's partial row adds its two tasks to the batch and keeps every row's handles at 2k and 2k+1 |
| `Analyze.ExploresFailureAborts` | henry/commands/analyze.py:137-138 | one failing future of any explore leaves no table at all |
| `Analyze.ExploresFieldStatsFailureAborts` | henry/commands/analyze.py:117 | a failing synchronous field-stats call leaves no table at all |
| `Vacuum.Run` | henry/commands/vacuum.py:10-18 | `models` runs the models report on the listing `get_models` gives for the input's project and model filters, `explores` the explores report on the listing `get_explores` gives for its model and explore filters; any other subcommand raises `UnboundLocalError` on `result` |
| `Vacuum.VacuumUnknownSubcommand` | henry/commands/vacuum.py:12-18 | a table is produced only for the two subcommands |
| `Vacuum.Models` | henry/commands/vacuum.py:20-46 | the models method returns exactly the reference table, having submitted the model list, the usage map and one unused-explores task per model |
| `Vacuum.SubmitModel` | henry/commands/vacuum.py:30-39 | one fan-out step: a failed assert gives `AssertionError` and submits nothing; a named model's unused-explores task is appended even when the usage future it then awaits fails, whose failure propagates; otherwise the partial row with the usage looked up under the model's own name |
| `Vacuum.FanOutModels` | henry/commands/vacuum.py:29-39 | one partial row per model or the first failure; model k's task sits at handle 2+k |
| `Vacuum.ResolveModelRow` | henry/commands/vacuum.py:44-45 | Unused Explores becomes the sorted, newline-joined list of the row's own future, and `future` is removed |
| `Vacuum.ResolveModels` | henry/commands/vacuum.py:43-45 | the resolution loop yields the reference rows, or the first failure in row order |
| `Vacuum.ModelsCells` | henry/commands/vacuum.py:26-45 | one row per model of the listing `get_models` gives for the report's filters; row k has exactly the report's columns: the model's own name, its usage looked up under its OWN name with default 0, and its own unused explores sorted and joined |
| `Vacuum.ModelsUnusedExploresListed` | henry/commands/vacuum.py:44 | the lines of Unused Explores are the future's names in ascending order, each as often as it was returned |
| `Vacuum.ModelsUsageFailure` | henry/commands/vacuum.py:28-36 | with at least one model, the first of which has a name, a failing usage future fails the report with that error |
| `Vacuum.ModelsNoModels` | henry/commands/vacuum.py:29-36 | with no models the usage future is never awaited, so the table is empty whatever it holds |
| `Vacuum.ModelsFailureAborts` | henry/commands/vacuum.py:43-44 | one failing unused-explores future leaves no table at all |
| `Vacuum.Explores` | henry/commands/vacuum.py:48-79 | the explores method returns exactly the reference table and submits one join-stats task per explore |
| `Vacuum.SubmitExplore` | henry/commands/vacuum.py:57-71 | one fan-out step: failed asserts give `AssertionError`, a failed field-stats call propagates, otherwise the partial row and the join-stats task |
| `Vacuum.FanOutExplores` | henry/commands/vacuum.py:57-71 | one partial row per explore, in order, or the first failure |
| `Vacuum.ResolveExploreRow` | henry/commands/vacuum.py:77-78 | Unused Joins becomes the sorted, newline-joined keys of the filtered join stats |
| `Vacuum.ResolveExplores` | henry/commands/vacuum.py:76-78 | the resolution loop yields the reference rows, or the first failure in row order |
| `Vacuum.ExploresCells` | henry/commands/vacuum.py:57-78 | row k has exactly the report's columns: Model and Explore copied, Unused Fields from the filtered field stats, Unused Joins from the filtered keys of its own join stats |
| `Vacuum.ExploresUnusedFieldsListed` | henry/commands/vacuum.py:69 | the lines of Unused Fields are the filtered names in ascending order, each as often as the filter returned it, so exactly once when the filter returns no duplicates |
| `Vacuum.ExploresUnusedJoinsListed` | henry/commands/vacuum.py:77-78 | the lines of Unused Joins are the filtered join keys, each exactly once, in strictly ascending order |
| `Vacuum.ExploresSubmitted` | henry/commands/vacuum.py:60-63 | explore k's task sits at handle k and carries its model, name and field stats |
| `Vacuum.ExploresFailureAborts` | henry/commands/vacuum.py:76-78 | one failing join-stats future leaves no table at all |
| `Pulse.CheckNames` | henry/commands/pulse.py:21-22 | the names `dir` lists whose attribute is callable and starts with "check_", in `dir` order (its properties: `CheckNamesMembers`, `CheckNamesDistinct`) |
| `Pulse.CheckNamesMembers` | henry/commands/pulse.py:21-22 | the checks run are exactly the callable attributes whose name starts with "check_" |
| `Pulse.CheckNamesDistinct` | henry/commands/pulse.py:21-24 | as `dir` lists each name once, each check is submitted once |
| `Pulse.Run` | henry/commands/pulse.py:17-28 | one task per check in `dir` order; results are emitted in completion order, numbered 1.. with the number of checks as total, up to the first failed check, whose error ends the run |
| `Pulse.OkPrefix` | henry/commands/pulse.py:25-26 | counts the results emitted before the first re-raised failure |
| `Pulse.OkPrefixAt` | henry/commands/pulse.py:25-26 | the emitted count is the index of the first failure, or the number of checks when none fails |
| `Pulse.CompletionCoversAll` | henry/commands/pulse.py:25 | a completion order yields every submitted future at exactly one position |
| `Pulse.EveryCheckEmittedOnce` | henry/commands/pulse.py:25-28 | without failures, exactly `len(tests)` results are emitted, numbered 1 to `len(tests)`, and each check's result appears at exactly one position |
| `Pulse.ConnectionsReport` | henry/commands/pulse.py:30-86 | the reference result of the connections check: the listing's failure, `NotFoundError` with nothing kept, the first fan-out failure, the first resolution failure, or the titled rows (its properties: `ConnectionsCells`, `ConnectionsNoneFound`, `ConnectionsFailureAborts`) |
| `Pulse.IsUserConnection` | henry/commands/pulse.py:33-37 | a connection is kept unless its name is one of the three reserved names (its properties: `KeptConnectionsFilter`, `ConnectionsNoneFound`) |
| `Pulse.KeptConnections` | henry/commands/pulse.py:33-38 | the listed connections whose name is not reserved, in listed order (its properties: `KeptConnectionsFilter`) |
| `Pulse.KeptConnectionsFilter` | henry/commands/pulse.py:33-38 | a connection is kept exactly when it is listed and its name is not reserved; kept connections keep their relative order |
| `Pulse.ConnectionsNoneFound` | henry/commands/pulse.py:40-41 | when every connection is reserved, the check fails with NotFoundError "No connections found." and builds no rows |
| `Pulse.CheckDbConnections` | henry/commands/pulse.py:30-86 | the connections check returns exactly the reference result titled "Checking connections"; it submits nothing when the listing fails or no connection is kept, and otherwise, once the fan-out completes, exactly the reference batch of two tasks per kept connection |
| `Pulse.SubmitConnection` | henry/commands/pulse.py:46-67 | one fan-out step: a missing dialect or name gives `AssertionError`, otherwise the partial row and the test and query tasks |
| `Pulse.FanOutConnections` | henry/commands/pulse.py:46-67 | one partial row per kept connection, in order, or the first failure |
| `Pulse.ConnectionsRowsExtend` | henry/commands/pulse.py:46-67 | appending a connection's partial row adds its test and query tasks and keeps every row's handles at 2k and 2k+1 |
| `Pulse.ConnectionsBatchLayout` | henry/commands/pulse.py:49-62 | connection k submits its tests at handle 2k and its query at 2k+1 |
| `Pulse.ErrorLines` | henry/commands/pulse.py:73-76 | one "- "-prefixed filled message per test whose status is "error", in order (its properties: `StatusListsErrors`) |
| `Pulse.Status` | henry/commands/pulse.py:77-78 | "OK" when there is no error line, else the error lines joined with line breaks (its properties: `StatusOkIff`, `StatusListsErrors`) |
| `Pulse.StatusOkIff` | henry/commands/pulse.py:73-78 | Status is "OK" if and only if no test result has status "error" |
| `Pulse.StatusListsErrors` | henry/commands/pulse.py:73-78 | otherwise Status joins one "- "-prefixed filled message per failed test, as many lines as failed tests, in their original order |
| `Pulse.FirstRunCount` | henry/commands/pulse.py:79-81 | the run count of the first decoded row; no rows give `IndexError`, a missing field gives `KeyError`, a decode failure propagates |
| `Pulse.ResolveConnectionRow` | henry/commands/pulse.py:72-81 | the tests are awaited and collapsed before the query is awaited and decoded |
| `Pulse.ResolveConnections` | henry/commands/pulse.py:72-81 | the resolution loop yields the reference rows, or the first failure in row order |
| `Pulse.ConnectionsCells` | henry/commands/pulse.py:63-86 | row k has exactly the three columns: the kept connection's name, the collapse of its own tests and the run count of its own query |
| `Pulse.ConnectionsSubmitted` | henry/commands/pulse.py:49-62 | a connection's two tasks carry its name and its dialect's tests |
| `Pulse.ConnectionsFailureAborts` | henry/commands/pulse.py:72-81 | a failing future or an unusable query response for any connection fails the whole check |
| `Pulse.LegacyFeatures` | henry/commands/pulse.py:180-187 | the legacy-features check: the listing's failure, or the rows titled "Checking for enabled legacy features" (its properties: `LegacyFeaturesResult`) |
| `Pulse.FeatureRows` | henry/commands/pulse.py:182-183 | one {"Feature": name} dict per enabled feature (its properties: the four `FeatureRows*` lemmas) |
| `Pulse.FeatureRowsCount` | henry/commands/pulse.py:182-183 | there are as many rows as enabled features |
| `Pulse.FeatureRowsListEnabled` | henry/commands/pulse.py:182-183 | every enabled feature has its {"Feature": name} row |
| `Pulse.FeatureRowsOnlyEnabled` | henry/commands/pulse.py:182-183 | every row names an enabled feature of the listing, so a disabled one never appears |
| `Pulse.FeatureRowsInOrder` | henry/commands/pulse.py:182-183 | the rows of a concatenated listing are the rows of each part, in the listed order |
| `Pulse.LegacyFeaturesResult` | henry/commands/pulse.py:180-187 | the check is titled "Checking for enabled legacy features" and fails only when the listing call fails |
| `Outcomes.CollectFailsIffSomeStepFails` | henry/commands/analyze.py:60-68 | a loop of `.result()` calls fails exactly when some step fails |
| `Looker.Get` | henry/commands/vacuum.py:36 | `d.get(key, default)` on a dict of counts (its properties: `Analyze.GetOrZeroIsGetDefault`, `Vacuum.ModelsCells`, `Analyze.ExploresFutureCells`) |
| `Text.StartsWith` | henry/commands/pulse.py:22 | `s.startswith(prefix)` (its properties: `Pulse.CheckNamesMembers`, `JoinStartsWithFirst`) |
| `Text.Contains` | henry/commands/analyze.py:39 | `sub in s` on strings (its properties: `ContainsIffOccurs`) |
| `Text.Less` | henry/commands/vacuum.py:44 | the code-point order `sorted` uses on strings (its properties: `LessIrreflexive`, `LessTransitive`, `LessTotal`, `LessAsymmetricAll`) |
| `Seqs.Keep` | henry/commands/pulse.py:35-38 | `list(filter(p, s))` (its properties: `KeepMembers`, `KeepAppend`, `KeepShorter`, `KeepNone`) |
| `Seqs.CountWhere` | henry/commands/analyze.py:64-67 | `sum(map(p, s))` for a boolean `p` (its properties: `CountIsKeptLength`, `CountWhereAppend`, `DisjointCountsBounded`) |
| `Text.Sort` | henry/commands/vacuum.py:44 | `sorted` of a list of strings, by insertion (its properties: `SortCorrect`) |
| `Text.SortSet` | henry/commands/vacuum.py:77-78 | `sorted` of the keys of a dict (its properties: `SortSetCorrect`) |
| `Text.Join` | henry/commands/vacuum.py:44 | `sep.join(xs)` (its properties: `SplitJoin`, `JoinStartsWithFirst`) |
| `Text.Split` | henry/commands/vacuum.py:44 | `s.split(c)`, the inverse used to say which names a joined cell lists (its properties: `SplitJoin`, `SortedLinesRecover`) |
| `Text.SortCorrect` | henry/commands/vacuum.py:44 | `sorted` of a list is in ascending order and a permutation of it |
| `Text.SortSetCorrect` | henry/commands/vacuum.py:77-78 | `sorted` of dict keys lists each key exactly once, in strictly ascending order |
| `Text.SortedLinesRecover` | henry/commands/vacuum.py:44 | splitting a sorted, newline-joined list of single-line names gives the sorted names back |
| `Text.SortedKeyLinesRecover` | henry/commands/vacuum.py:77-78 | splitting sorted, newline-joined single-line keys gives each key back exactly once |
| `Text.SortedLinesEmpty` | henry/commands/vacuum.py:44 | an empty list gives an empty cell, which splits into one empty line |
| `Text.SplitJoin` | henry/commands/vacuum.py:44 | joining pieces without the separator, then splitting, gives the same pieces back |

## Left out

- The thread pool, `as_completed` and the busy-wait `while True` loops are not modelled: each future has a fixed outcome, and `Pulse.Run` takes the completion order as a parameter. The parameter must be a permutation, which `as_completed` guarantees.
- The Looker SDK and the `fetcher` helpers are remote I/O (`get_projects`, `get_models`, `get_explores`, `all_project_files`, `get_used_models`, `get_unused_explores`, `get_used_explores`, `get_explore_field_stats`, `get_explore_join_stats`, `run_git_connection_tests`, `all_connections`, `test_connection`, `run_inline_query`, `all_legacy_features`). Each is an outcome function of `Looker.Instance` or `Pulse.Sdk`.
- `_filter` is defined outside these files, so it is an abstract function: list to list for field stats, dict to dict for join stats.
- `json.loads` is an abstract decoder returning rows. `textwrap.fill` is an abstract string function.
- The simple checks (`check_dashboard_performance`, `check_dashboard_errors`, `check_explore_performance`, `check_schedule_failures`) only build a query and return the parsed response. `Pulse.Run` treats every check's result as an outcome of its future.
- The average-runtime suffix of `check_explore_performance` is float formatting.
- Printing is not modelled: the spinner, `output`, `_tabularize_and_print`, and the `Test i/n` line. A report's result is the table, and `Pulse.Run` returns its emissions as data.
- thread_testing.py is a timing harness (argument parsing, clock, JSON file output) and is not part of this model.
- Rows are maps, so column order (dict insertion order) is not modelled.
- `cast(...)` is a no-op at run time, and the model keeps what the value then does. A missing `git_remote_url` makes the `in` test raise `TypeError` (`Analyze.SubmitProject`). A missing `id` reaches the git-test task unchanged, as an `Option`. `pull_request_mode` is no cast: its `isinstance` assert is modelled, and its `.value` is the string the entity holds. The casts on test messages (pulse.py:76) and feature names (pulse.py:183) are assumed to hold: both are typed as strings, so a `None` there is not modelled.
