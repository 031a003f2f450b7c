# scheduler-dag in Dafny

A model of the core of `scheduler-dag`, a small job scheduler written in
Python. A workflow is a DAG of tasks (shell, Python, PySpark, Spark SQL and
Hive SQL). It is built from a JSON-like configuration, sorted into levels by
Kahn's algorithm, and run level by level under a fail-fast policy, with one
history record appended per run. Parameters are `${name}` tokens with a
small date language (`${yyyy-MM-dd-1}` is yesterday). The command-line
backfill re-runs a workflow once per date of a range, rewriting the date
parameters for each date.

One Dafny module per source file, plus shared helpers:

| module | file | models |
|---|---|---|
| `Outcomes` | outcomes.dfy | `Option` and `Result` |
| `Text` | text.dfy | the `str` methods the code uses: `find`, `in`, `replace`, `split`, `strip`, `lower`, `str(int)` |
| `Calendar` | calendar.dfy | civil dates as Python day numbers, weekday, `timedelta` days, the `strftime` directives used, `strptime("%Y-%m-%d")` |
| `Params` | params.dfy | `ParamManager`: the token scan, the date language, the format table and the recursive resolution |
| `DateExpr` | dateexpr.dfy | `get_date`, `parse_date_expr` and `convert_date_format` of the utilities module |
| `SqlSplit` | sqlsplit.dfy | `split_sql_file` over the text of a file |
| `Tasks` | tasks.dfy | the `Task` class and its five kinds: parameters, constructor checks, the task-level substitution, argument vectors |
| `Graph` | graph.dfy | the graph theory the DAG relies on: Kahn levels, cycles, layerings, reachability |
| `Dag` | dag.dfy | the `DAG` class: registration, edges, `topological_sort`, the two closure searches |
| `Run` | run.dfy | the part `DAG.execute` and `Workflow.execute` share: scope, schedule, run |
| `Engine` | engine.dfy | the `Workflow` class: fail-fast, history records, the alert request |
| `Config` | config.dfy | `WorkflowConfig.create_workflow`, `_create_task`, `get_task_ids`, `load_workflow_from_config` |
| `Backfill` | backfill.dfy | the three date-range helpers, the date bundle and the template offset parser of the backfill |
| `BackfillRun` | backfill_run.dfy | `run_backfill`: parameter rewrite, task parameters, custom commands, merge and the date loop |

Modelling choices:

- Running a task is an oracle function from a task id, its resolved
  parameters and its upstream results to a result or a raised message.
  Running a whole workflow in the backfill is an oracle of the same kind.
- The current time is a parameter (`now`), and so is the user's answer
  to the backfill confirmation.
- Python's recursion limit is a depth budget (`depth`). Running out of it
  is the model's `RecursionError`.
- A Python dictionary is an ordered list of distinct keys (`Tasks.Dict`)
  wherever insertion order is visible (argument vectors, kwargs), and a
  `map` elsewhere.
- Where Python iterates a `set` (the BFS queues, the ids within a level),
  the model picks an arbitrary element, so every order is covered.

## Model

| member | source | states |
|---|---|---|
| Text.IndexOf | scheduler/task.py:265 | the first index at which the pattern occurs, or none when it does not occur |
| Text.ReplaceAbsent | scheduler_cli.py:604 | `replace` of a text that does not occur is the identity |
| Text.JoinSplit | scheduler/config.py:137 | joining the pieces of `split(c)` with `c` gives the text back |
| Text.StripEmpty | scheduler/utils.py:225 | a text strips to "" exactly when it is all whitespace |
| Text.RemoveDashes | scheduler_cli.py:467 | the result has no '-' and every character of it comes from the text |
| Text.DigitsOfNat | scheduler/params.py:80 | the digits of `str(n)` read back as `n` |
| Calendar.AddDays | scheduler/utils.py:44 | `timedelta(days=n)` moves the day number by exactly `n`, staying a valid date |
| Calendar.AddDaysCompose | scheduler/utils.py:44 | shifting by `a` then `b` is shifting by `a + b` |
| Calendar.WeekdayPeriodic | scheduler_cli.py:155 | a shift by whole weeks keeps the weekday |
| Calendar.MondayOnOrBefore | scheduler_cli.py:147-149 | moving back by `weekday()` days lands on a Monday |
| Calendar.OrderIsOrdinalOrder | scheduler_cli.py:120 | comparing two dates is comparing their day numbers |
| Calendar.StrftimeIso | scheduler_cli.py:127 | `%Y-%m-%d` renders the date part as its ISO text |
| Calendar.ParseIso | scheduler_cli.py:117-118 | a text `strptime("%Y-%m-%d")` accepts names an existing day of years 1 to 9999 |
| Calendar.ParseIsoText | scheduler_cli.py:443 | parsing the ISO text of a date of years 1000 to 9999 gives the date back |
| Params.RenderScan | scheduler/params.py:67 | the token scan loses nothing: the pieces render back to the text |
| Params.ScanScanned | scheduler/params.py:67 | a `${` left as plain characters is followed by '}' at once or by no '}' at all |
| Params.MatchDateExprSpec | scheduler/params.py:73-77 | the date prefix matches exactly when the regex `[a-zA-Z-]+[+-]\d+` has a split, and the match takes the longest format and every digit after the sign |
| Params.MatchForward | scheduler/params.py:79-83 | `<format>+<digits>` is an offset of plus the digits' value |
| Params.MatchBackward | scheduler/params.py:79-83 | `<format>-<digits>` is an offset of minus the digits' value, the last '-' being the sign |
| Params.MatchDateExprExamples | scheduler/params.py:73-94 | `yyyy-MM-dd+1` is one day ahead and `yyyy-MM-dd-1` one day back, with format `yyyy-MM-dd` |
| Params.ConvertToPythonDateFormat | scheduler/params.py:110-135 | the loop over the table gives the six replacements applied in table order |
| Params.ConvertFormatSteps | scheduler/params.py:121-133 | the conversion is yyyy, MM, dd, HH, mm, ss replaced one after the other |
| Params.ConvertIsoFormat | scheduler/params.py:121-133 | `yyyy-MM-dd` becomes `%Y-%m-%d` |
| Params.ResolveNoRefs | scheduler/params.py:108 | a text without a reference resolves to itself at any depth |
| Params.ResolveDepthMonotone | scheduler/params.py:100-101 | once resolution succeeds, a larger depth gives the same text |
| Params.ResolveLoneRef | scheduler/params.py:108 | a text that is one reference resolves as that reference does |
| Params.ResolveStoredString | scheduler/params.py:97-101 | `${a}` with a stored string resolves to the resolution of that string |
| Params.ResolveOtherRefs | scheduler/params.py:102-105 | a stored non-string becomes its `str`; an unknown name keeps its token verbatim |
| Params.ResolveDateRef | scheduler/params.py:73-94 | a date token resolves to the shifted, formatted date whatever the store holds |
| Params.ResolveTomorrow | scheduler/params.py:73-94 | `${yyyy-MM-dd+1}` resolves to tomorrow's ISO text, which parses back to tomorrow |
| Params.SelfReferenceDiverges | scheduler/params.py:100-101 | a parameter whose value is its own token exhausts every depth budget |
| Params.RankedResolves | scheduler/params.py:97-101 | with references ranked acyclically, a depth above the ranks makes resolution succeed |
| Params.ResolveIn | scheduler/params.py:63-64 | a non-string is returned as it is; a string resolves in the store |
| Params.ParamManager.constructor | scheduler/params.py:27-29 | the store starts empty |
| Params.ParamManager.SetParams | scheduler/params.py:31-38 | the store becomes the old one updated by the argument, whose entries win |
| Params.ParamManager.GetParam | scheduler/params.py:40-51 | the stored value, or the default for an absent key |
| Params.ParamManager.ResolveValue | scheduler/params.py:53-108 | the resolution of the value in the current store |
| DateExpr.GetDateToday | scheduler/utils.py:44-45 | a zero delta formats `now` itself |
| DateExpr.GetDateCompose | scheduler/utils.py:44-45 | a delta of `a + b` from `now` is `b` from `now` moved by `a` |
| DateExpr.ParseDateExpr | scheduler/utils.py:48-81 | no prefix match returns the input; a match gives the shifted date in the converted format |
| DateExpr.ParseDateExprAgrees | scheduler/utils.py:64-78 | `parse_date_expr(e)` is what the parameter manager gives for `${e}` |
| DateExpr.ParseYesterday | scheduler/utils.py:64-78 | `parse_date_expr("yyyy-MM-dd-1")` is yesterday's ISO text |
| SqlSplit.CutComment | scheduler/utils.py:197-210 | the scan stops at a `--` outside quotes and carries the quote state |
| SqlSplit.CutOutsideQuotes | scheduler/utils.py:197-210 | outside quotes, with no quote ahead, the cut is at the first `--` |
| SqlSplit.CutInsideQuote | scheduler/utils.py:197-210 | inside a quote, with no quote ahead, nothing is cut and the quote stays open |
| SqlSplit.NonBlank | scheduler/utils.py:225 | the statements kept are the non-blank ones, in order |
| SqlSplit.FindComment | scheduler/utils.py:197-210 | the character loop computes the cut and the quote state of `CutComment` |
| SqlSplit.ProcessLine | scheduler/utils.py:176-219 | one pass of the line loop is the step function on the state |
| SqlSplit.SplitSqlFile | scheduler/utils.py:158-225 | the line loop then the filter gives the split of the whole text |
| SqlSplit.CommentLineSkipped | scheduler/utils.py:181-182 | a line starting with `--` or `#` changes nothing |
| SqlSplit.BlockCommentOpens | scheduler/utils.py:185-194 | a line with `/*` and no `*/` enters comment mode and keeps nothing |
| SqlSplit.InsideBlockComment | scheduler/utils.py:185-194 | in comment mode a line without `*/` is skipped |
| SqlSplit.BlockCommentCloses | scheduler/utils.py:185-194 | the closing line goes on with the text after `*/` |
| SqlSplit.DashCommentCut | scheduler/utils.py:197-210 | outside quotes a `--` cuts the line at its first occurrence |
| SqlSplit.QuoteSpansLine | scheduler/utils.py:197-214 | inside an open quote a line without a quote is kept whole and the quote stays open |
| SqlSplit.PlainLineKept | scheduler/utils.py:213-219 | a plain line joins the open statement; one with ';' closes it with that line last |
| SqlSplit.FinishKeepsTrailing | scheduler/utils.py:222-225 | the closed statements in order, blanks dropped, then the non-blank open one |
| SqlSplit.SplitSqlKeepsTrailing | scheduler/utils.py:222-225 | an unterminated rest with a kept line is the last statement |
| SqlSplit.SplitSqlStatements | scheduler/utils.py:216-225 | every statement is non-blank and all but the last hold a ';' |
| Tasks.Lookup | scheduler/task.py:154 | the value stored under the key, none when absent |
| Tasks.Put | scheduler/task.py:140 | the key maps to the value, other keys keep theirs, a new key goes last |
| Tasks.PutAt | scheduler/task.py:140 | an existing key is updated in its place |
| Tasks.TypeName | scheduler/task.py:186-199 | the `task_type` each class gives its base |
| Tasks.TypeNameInjective | scheduler/task.py:186-199 | two kinds with the same `task_type` are the same kind |
| Tasks.ConstructionErrorSpec | scheduler/task.py:291-292 | a constructor raises exactly when Python, PySpark or SQL settings give nothing to run |
| Tasks.PythonModeOf | scheduler/task.py:311-410 | the branch `execute` takes: a callable, then a custom command, then a script path, and none only without a source |
| Tasks.SubstituteNoRefs | scheduler/task.py:256-265 | a text without references is unchanged |
| Tasks.SubstituteUnknown | scheduler/task.py:256-265 | references to names that are not parameters are left as written |
| Tasks.SubstituteFills | scheduler/task.py:256-265 | every reference to a parameter becomes `str` of its value and the others stay |
| Tasks.SubstituteToken | scheduler/task.py:256-265 | a whole-text token of a parameter becomes `str` of its value |
| Tasks.ResolveDict | scheduler/task.py:164-167 | every string value is resolved in order, keys and non-strings unchanged, or none on a failed resolution |
| Tasks.ResolvePlainParams | scheduler/task.py:164-167 | non-strings and reference-free strings survive resolution |
| Tasks.CallableKwargs | scheduler/task.py:315-319 | every parameter passed by name, and `upstream_results` only when non-empty |
| Tasks.AssignKwarg | scheduler/task.py:317 | `kwargs[k] = v` keeps an existing key in place |
| Tasks.Flagged | scheduler/task.py:816-818 | a flag then `k=v` for each entry, in order |
| Tasks.LongOptions | scheduler/task.py:375-377 | `--k=v` for each entry, in order |
| Tasks.InitOptions | scheduler/task.py:776-791 | `-i path` for each init script, in order |
| Tasks.SqlArgsRoundTrip | scheduler/task.py:773-818 | an SQL vector reads back to its init scripts, configuration, file and variables |
| Tasks.SparkSqlArgsRoundTrip | scheduler/task.py:773-818 | the `spark-sql` vector reads back to its parts |
| Tasks.HiveArgsRoundTrip | scheduler/task.py:1029-1041 | the `hive` vector reads back the same way with `--hiveconf` |
| Tasks.PythonArgsRoundTrip | scheduler/task.py:370-377 | the script vector is `python`, the script, then each parameter in order |
| Tasks.PySparkArgsRoundTrip | scheduler/task.py:594-603 | the PySpark vector reads back to configuration, script and parameters |
| Tasks.ResolvedConfig | scheduler/task.py:584-591 | each string configuration value substituted, the others kept, in order |
| Tasks.Task.constructor | scheduler/task.py:116-127 | the task holds its id, kind, parameters and configuration |
| Tasks.Task.SetParam | scheduler/task.py:129-141 | stores the value and returns the task itself |
| Tasks.Task.GetParam | scheduler/task.py:143-154 | the stored value, or the default for an absent key |
| Tasks.Task.ResolveParams | scheduler/task.py:156-167 | success exactly when every string resolves, with the parameters then their resolution; on a failure the entries before the first unresolvable string hold their resolutions and that entry and all after it are unchanged; keys unchanged either way |
| Tasks.FirstUnresolvable | scheduler/task.py:163-167 | the position of the first value whose resolution fails, every value before it resolving |
| Tasks.ResolvedInPlace | scheduler/task.py:163-167 | the parameters after the loop: resolved up to the first failure, unchanged from it on, keys kept |
| Tasks.InPlaceAt | scheduler/task.py:163-167 | parameters resolved up to the first failing value and untouched from it on are what the loop leaves |
| Tasks.ResolvedInPlaceSpec | scheduler/task.py:163-167 | the whole resolution succeeds exactly when no value fails, and then it is what the loop leaves; on a failure the failing entry is left as it was |
| Tasks.Task.SubstituteRefs | scheduler/task.py:256-265 | the loop over the original text's references gives the substitution |
| Tasks.Task.ResolveCommand | scheduler/task.py:245-265 | the command with its parameter references substituted |
| Tasks.Task.ResolveScriptContent | scheduler/task.py:457-480 | "" without content, else the substituted content |
| Tasks.Task.ResolveSqlContent | scheduler/task.py:893-919 | "" for an empty text, else the substituted text |
| Tasks.Task.ResolveValue | scheduler/task.py:641-667 | a non-string unchanged, a string substituted |
| Tasks.Task.ResolveConfig | scheduler/task.py:584-591 | the configuration loop gives `ResolvedConfig` |
| Tasks.Task.PythonCommand | scheduler/task.py:370-377 | the script vector of the task's parameters |
| Tasks.Task.PySparkCommand | scheduler/task.py:594-603 | configuration, script, then parameters |
| Tasks.Task.SparkSqlCommand | scheduler/task.py:773-818 | init options, the substitution setting added unless present, then configuration, file and variables |
| Tasks.Task.EnableSubstitution | scheduler/task.py:794-795 | the substitution key set to "true" only when absent |
| Tasks.Task.HiveCommand | scheduler/task.py:1029-1041 | as Spark SQL with `--hiveconf` and no added setting |
| Tasks.AppendFlagged | scheduler/task.py:816-818 | the loop appends `Flagged` of the dictionary |
| Tasks.AppendLongOptions | scheduler/task.py:375-377 | the loop appends `LongOptions` of the dictionary |
| Tasks.AppendInits | scheduler/task.py:780-791 | the loop appends `InitOptions` of the scripts |
| Tasks.NewTask | scheduler/task.py:271-298 | a task of the settings, or the constructor's `ValueError` |
| Graph.Ready | scheduler/dag.py:149 | the unplaced nodes whose dependencies are all placed |
| Graph.LevelsFresh | scheduler/dag.py:151-164 | each level is non-empty and new |
| Graph.LevelsWithin | scheduler/dag.py:151-164 | levels hold only nodes of the graph |
| Graph.LevelsDisjoint | scheduler/dag.py:151-164 | distinct levels share no node |
| Graph.LevelsDepsBefore | scheduler/dag.py:151-164 | a node's dependencies sit in earlier levels |
| Graph.LevelsTight | scheduler/dag.py:151-164 | a node of a later level waits on a node of the level just before |
| Graph.LevelsEnd | scheduler/dag.py:151-164 | when levels run out every leftover node waits on an unplaced one |
| Graph.CoreNeverPlaced | scheduler/dag.py:167-168 | no node of a core of mutually waiting nodes is ever placed |
| Graph.LevelsCoverIffAcyclic | scheduler/dag.py:167-168 | the levels place every node exactly when there is no cycle |
| Graph.CycleLeftOver | scheduler/dag.py:167-168 | a cycle leaves a node unplaced |
| Graph.LevelsOrdered | scheduler/dag.py:141-170 | every edge goes from a strictly earlier level |
| Graph.LevelsSources | scheduler/dag.py:149 | the first level is exactly the nodes without dependencies |
| Graph.LevelsLayer | scheduler/dag.py:141-170 | on an acyclic graph the levels partition the nodes into a tight layering |
| Graph.ClosedHoldsReachable | scheduler/dag.py:298-311 | a set closed under steps holds everything reachable |
| Graph.ReachesMirror | scheduler/dag.py:298-336 | reaching along reversed edges is reaching backwards |
| Dag.ReleaseDependents | scheduler/dag.py:158-164 | each dependent loses one from its count and joins the queue when it reaches zero |
| Dag.DrainOne | scheduler/dag.py:151-164 | one task releases its dependents and the queue grows by those made ready |
| Dag.DrainLevel | scheduler/dag.py:151-164 | draining a level leaves exactly the next level in the queue |
| Dag.Sources | scheduler/dag.py:149 | the tasks without dependencies, in registration order, without repetition |
| Dag.InitialDegrees | scheduler/dag.py:141-145 | each task's count is its number of dependencies |
| Dag.Kahn | scheduler/dag.py:133-165 | the levels built are the levels of the graph, each without repetition |
| Dag.VisitNeighbours | scheduler/dag.py:303-309 | every neighbour recorded, and queued unless visited |
| Dag.Closure | scheduler/dag.py:288-311 | the search returns exactly the nodes reachable in one or more steps |
| Dag.ClosureComplete | scheduler/dag.py:300-311 | with the queue empty the result holds everything reachable |
| Dag.Dag.constructor | scheduler/dag.py:39-52 | no tasks, no edges, an empty parameter store |
| Dag.Dag.AddTask | scheduler/dag.py:54-68 | the id maps to the task; a new id goes last in registration order; edges unchanged |
| Dag.Dag.GetTask | scheduler/dag.py:119-131 | the task, or the unknown-task error exactly when absent |
| Dag.Dag.SetDependency | scheduler/dag.py:70-91 | unknown upstream, then unknown downstream is the error; otherwise the edge in both maps |
| Dag.Dag.SetUpstream | scheduler/dag.py:93-104 | `upstream` becomes a dependency of `id` in both maps |
| Dag.Dag.SetDownstream | scheduler/dag.py:106-117 | `id` becomes a dependency of `downstream` in both maps |
| Dag.Dag.SetParams | scheduler/dag.py:186-197 | merged into the parameter store, the argument winning |
| Dag.Dag.GetDependencies | scheduler/dag.py:172-184 | the upstream-to-dependents map: `d` under `u` exactly when `u` is a dependency of `d` |
| Dag.Dag.TopologicalSort | scheduler/dag.py:133-170 | the cycle error exactly on a cyclic graph; otherwise the Kahn levels, a layering, sources first in registration order |
| Dag.Dag.Downstream | scheduler/dag.py:288-311 | exactly the tasks that reach `id` along dependencies |
| Dag.Dag.Upstream | scheduler/dag.py:313-336 | exactly the tasks `id` reaches along dependencies |
| Dag.AddEdgeMirror | scheduler/dag.py:81-89 | adding the edge to both maps keeps them mirror images |
| Dag.SortCheck | scheduler/dag.py:167-170 | the count check passes exactly when acyclic, and then the levels layer the graph |
| Run.Resolutions | scheduler/dag.py:547 | each task's parameters resolved in the store |
| Run.FirstUnknown | scheduler/dag.py:490-495 | the first id of `only_tasks` that is not a task, if any |
| Run.SelectTasks | scheduler/dag.py:489-525 | the scope: `only_tasks` or all, cut to the start's downstream and the end's upstream, or the unknown-id error |
| Run.Filter | scheduler/dag.py:531-533 | the level's tasks in scope, in level order |
| Run.Schedule | scheduler/dag.py:531-540 | the filtered levels, one after the other |
| Run.ScheduleMembers | scheduler/dag.py:531-540 | a task is scheduled exactly when it is in a level and in scope |
| Run.PlannedSchedule | scheduler/dag.py:528-540 | a layering's schedule runs every selected task exactly once |
| Run.ScheduleOrdered | scheduler/dag.py:531-540 | every scheduled dependency comes before its dependent |
| Run.UpstreamResults | scheduler/dag.py:544 | the results of the task's direct dependencies that have one |
| Run.RunHalted | scheduler/dag.py:563-566 | after a stop the rest of the schedule changes nothing |
| Run.RunResults | scheduler/dag.py:552-556 | results are those of completed tasks, all scheduled |
| Run.RunFailures | scheduler/dag.py:557-566 | failures name scheduled tasks; without fail-fast only an unresolvable parameter stops the run |
| Run.RunOnce | scheduler/dag.py:552-566 | no task both completed and failed |
| Run.FailFastPrefix | scheduler/dag.py:552-566 | with fail-fast the completed tasks are the schedule before the failing one |
| Run.ScheduleCovers | scheduler/dag.py:528-540 | every selected task is scheduled |
| Run.DependenciesFirst | scheduler/dag.py:544-556 | with fail-fast every completed task's selected dependencies completed before it |
| Run.TaskParams | scheduler/dag.py:547 | each task's parameters, by id |
| Run.RunTask | scheduler/dag.py:541-566 | resolve in place, run on the upstream results, record: one step of the run; the task's parameters are left as the in-place loop leaves them, every other task's are unchanged |
| Run.Reached | scheduler/dag.py:541-566 | how many tasks of the schedule started, at most all of them |
| Run.ReachedSpec | scheduler/dag.py:541-566 | without a stop every task started; with one, the last task started is the one that stopped the run and the run up to it already gives the final state |
| Run.ReachedAt | scheduler/dag.py:541-566 | a run first stopped by task `n` started exactly `n + 1` tasks |
| Run.RanFailFast | scheduler/dag.py:262-286 | with fail-fast the tasks that started are the completed ones and, after a stop, the one that stopped it |
| Run.InPlaces | scheduler/dag.py:547 | each task's parameters as the in-place resolution leaves them |
| Run.RunLevel | scheduler/dag.py:541-566 | the inner loop is the run of the level's stretch of the schedule; the tasks started so far hold their resolved parameters, all others their original ones |
| Run.RunTaskAt | scheduler/dag.py:541-566 | one pass of the inner loop: the run stands one task further with that task's parameters resolved in place, or has stopped in the state the whole schedule gives |
| Run.RunLevelAt | scheduler/dag.py:531-566 | one pass of the outer loop: the run stands at the end of the level's stretch, or has stopped in the state the whole schedule gives, the started tasks holding their resolved parameters |
| Run.RanWhole | scheduler/dag.py:541-566 | a run that never stops starts every task |
| Run.RanAfterHalt | scheduler/dag.py:563-566 | a task after a stop neither changes the state nor starts |
| Run.RanAfterRunning | scheduler/dag.py:541-566 | a run still going before the last task starts every task |
| Run.StepFailFast | scheduler/dag.py:552-566 | with fail-fast a task either completes or stops the run at itself |
| Run.InPlacesResolve | scheduler/dag.py:547 | each task's entry is its in-place resolution |
| Run.RunLevels | scheduler/dag.py:531-566 | the nested loops give the run of the whole schedule; afterwards exactly the tasks that started hold their parameters as resolved in place, the others their original ones |
| Run.Outcome | scheduler/dag.py:568 | the results when nothing stopped the run, else the exception |
| Run.Dispatch | scheduler/dag.py:486-566 | the sort error, the scope error, or the run of the schedule of the layered levels; no parameters change on an error, and after a run exactly the tasks that started hold their in-place resolution |
| Run.DagOutcome | scheduler/dag.py:199-286 | a sort or scope error is a `ValueError`, otherwise the run's outcome |
| Run.DagExecute | scheduler/dag.py:199-286 | the cycle error, the scope error, or the fail-fast run of the selected tasks; no parameters change on an error, and after a run exactly the tasks that started hold their in-place resolution |
| Engine.SortedSetFacts | scheduler/dag.py:580 | `sorted(set)` holds exactly the set, ascending |
| Engine.SortedSetUnique | scheduler/dag.py:580 | `sorted` gives the same list whatever order the set was listed in |
| Engine.DagErrorTextInjective | scheduler/dag.py:570-575 | distinct `ValueError`s have distinct messages |
| Engine.HaltText | scheduler/dag.py:570-575 | a raised task's message is its own |
| Engine.FinalMessage | scheduler/dag.py:570-575 | the message after the `except`: unchanged without a stop, some message with one |
| Engine.Record | scheduler/dag.py:593-611 | the record keeps the arguments; SUCCESS exactly when the outcome is a success |
| Engine.Alert | scheduler/dag.py:576-590 | an alert exactly when alerts are on and a task failed, with the uncompleted tasks sorted |
| Engine.FailFastRecord | scheduler/dag.py:552-611 | with fail-fast: SUCCESS lists the whole schedule; FAILED lists the prefix before the failed task |
| Engine.LenientRecord | scheduler/dag.py:557-568 | without fail-fast only an unresolvable parameter fails the record; SUCCESS still names the last failure |
| Engine.FailFastAlert | scheduler/dag.py:576-590 | with fail-fast the alert lists as uncompleted exactly the tasks after the failed one |
| Engine.Workflow.constructor | scheduler/dag.py:372-385 | an empty DAG, fail-fast on, alerts off, no history |
| Engine.Workflow.AddTask | scheduler/dag.py:387-398 | the task added to the DAG |
| Engine.Workflow.SetDependency | scheduler/dag.py:400-412 | the DAG's `set_dependency` |
| Engine.Workflow.SetParams | scheduler/dag.py:414-425 | merged into the DAG's store |
| Engine.Workflow.SetFailFast | scheduler/dag.py:427-438 | the flag set, the rest unchanged |
| Engine.Workflow.EnableFeishuAlert | scheduler/dag.py:440-453 | alerts on, the rest unchanged |
| Engine.Workflow.DisableAlert | scheduler/dag.py:455-463 | alerts off, the rest unchanged |
| Engine.Workflow.Execute | scheduler/dag.py:465-615 | one record appended, the outcome of the shared part returned, the alert of an alerted failure; no parameters change on a sort or scope error, and after a run exactly the tasks that started hold their in-place resolution |
| Engine.Workflow.Log | scheduler/dag.py:611 | one record appended; no task's parameters and no setting change |
| Config.Get | scheduler/config.py:177-178 | the string under the key, none for a missing or null key |
| Config.InitScripts | scheduler/task.py:776-778 | a falsy `init_script` gives none, a path a one-element list, a list itself |
| Config.ConfigKind | scheduler/config.py:188-240 | the `type` of each kind, one to one |
| Config.Settings | scheduler/config.py:177-243 | the checks in order, then the dispatch on `type` |
| Config.TaskFrom | scheduler/config.py:167-243 | the task, or the first `ValueError` raised |
| Config.TaskFromSucceeds | scheduler/config.py:177-243 | which configurations give a task |
| Config.TaskFromErrors | scheduler/config.py:180-191 | the errors in the order the code checks them |
| Config.TaskFromConfig | scheduler/config.py:210-240 | `spark_config` for PySpark and Spark SQL, `hive_config` for Hive, none otherwise |
| Config.BuiltTasks | scheduler/config.py:129-131 | every task built in order, or the first error |
| Config.BuiltTasksOf | scheduler/config.py:129-131 | a built prefix followed by the first error |
| Config.TaskTableSpec | scheduler/config.py:129-131 | each built id maps to the last task built with it |
| Config.TaskIds | scheduler/config.py:245-252 | the `task_id` of each entry having the key, in order |
| Config.TaskIdsOfBuilt | scheduler/config.py:252 | for a building configuration, the built ids in order |
| Config.Ids | scheduler/config.py:137-139 | the stripped comma-separated pieces |
| Config.PairsSpec | scheduler/config.py:142-144 | the pairs are every upstream with every downstream |
| Config.DepEdgesSpec | scheduler/config.py:134-144 | an entry with both keys links each `from` id to each `to` id; others add nothing |
| Config.EdgesSpec | scheduler/config.py:134-144 | a pair is set exactly when some entry gives it |
| Config.EdgeMapSpec | scheduler/config.py:134-144 | `u` is an upstream of `d` exactly when a call added that edge |
| Config.FirstBadEdgeSpec | scheduler/config.py:134-144 | no call fails exactly when every pair names two tasks |
| Config.BuildErrorNone | scheduler/config.py:105-165 | no error when the tasks build and every pair names two tasks |
| Config.FailFastSetting | scheduler/config.py:162-163 | `alert.get('fail_fast', True)` for a non-empty alert section, else true |
| Config.AlertsEnabled | scheduler/config.py:147-159 | alerts on exactly for a `feishu` section with a non-empty webhook URL |
| Config.Expected | scheduler/config.py:105-165 | the workflow built when nothing raises |
| Config.CreateWorkflow | scheduler/config.py:105-165 | the expected workflow, or the first error |
| Config.NewWorkflow | scheduler/config.py:116-126 | an empty workflow holding the merged parameters, overrides winning |
| Config.ApplyAlert | scheduler/config.py:146-163 | alerts and fail-fast set from a non-empty alert section |
| Config.AddTasks | scheduler/config.py:128-131 | the tasks loop adds every built task, or stops at the first error |
| Config.AddBuilt | scheduler/config.py:130-131 | one task constructed and added |
| Config.AddDependencies | scheduler/config.py:133-144 | the dependency loop sets every pair, or stops at the first unknown id |
| Config.ConfigOf | scheduler/config.py:269-286 | a dictionary without `name` or a non-dictionary is a `ValueError` |
| Config.LoadWorkflowFromConfig | scheduler/config.py:255-289 | the workflow of the dictionary without overrides, or the error |
| Backfill.OrdinalYears | scheduler_cli.py:128 | the day numbers `datetime` accepts are those of years 1 to 9999 |
| Backfill.Shift | scheduler_cli.py:513 | the shifted date, or none where Python overflows |
| Backfill.DayDates | scheduler_cli.py:124-128 | every day from start to end |
| Backfill.DayRangeOf | scheduler_cli.py:114-133 | after parsing and the order check, the days or the overflow |
| Backfill.GetDateRange | scheduler_cli.py:114-133 | the parse errors, the order error, then the day range |
| Backfill.DaysFrom | scheduler_cli.py:124-128 | the loop lists exactly the days of the range |
| Backfill.WeekRangeOf | scheduler_cli.py:136-160 | after parsing and the order check, the Mondays or the overflow |
| Backfill.GetWeekRange | scheduler_cli.py:136-160 | the parse errors, the order error, then the week range |
| Backfill.WeeksFrom | scheduler_cli.py:146-155 | the loop lists exactly the Mondays of the range |
| Backfill.MonthRangeOf | scheduler_cli.py:163-192 | after parsing and the order check, the month starts or the failure |
| Backfill.GetMonthRange | scheduler_cli.py:163-192 | the parse errors, the order error, then the month range |
| Backfill.MonthsFrom | scheduler_cli.py:173-187 | the loop lists exactly the first days of the months |
| Backfill.DayDatesSpec | scheduler_cli.py:124-128 | starts at the start, ends at the end, consecutive days, every day between |
| Backfill.WeekDatesSpec | scheduler_cli.py:146-155 | starts at the Monday on or before the start, Mondays seven days apart, none after the end |
| Backfill.MonthDatesSpec | scheduler_cli.py:173-187 | first days of consecutive months from the start's month, December rolling over, none after the end |
| Backfill.RangesNonEmpty | scheduler_cli.py:337-359 | a successful range is never empty |
| Backfill.DayRangeOverflow | scheduler_cli.py:128 | the day range overflows exactly when the end is 9999-12-31 |
| Backfill.MonthRangeOverflow | scheduler_cli.py:181-187 | the month range fails exactly for an end in December 9999 |
| Backfill.WeekRangeOverflow | scheduler_cli.py:155 | the week range overflows only for an end in the last week of 9999 |
| Backfill.SelectDates | scheduler_cli.py:337-359 | custom dates first, else the range of the granularity, else a refusal |
| Backfill.DatePointsSpec | scheduler_cli.py:337-359 | custom dates win, and the refusals are exactly an unknown granularity or missing dates |
| Backfill.DateBundle | scheduler_cli.py:447-468 | the two loops give the bundle |
| Backfill.BundleSpec | scheduler_cli.py:447-468 | each name holds its formatted date, and a `_no_dash` companion that is not itself a name holds it without dashes |
| Backfill.StoreOf | scheduler_cli.py:616 | the dictionary's entries as a map, each key with the value `Lookup` gives it (its first entry, the only one in a dictionary) |
| Backfill.DayParams | scheduler_cli.py:616 | the date parameters overlaid by the custom ones, which win |
| Backfill.FirstPattern | scheduler_cli.py:484-493 | the first listed offset occurring in the body |
| Backfill.SignAtSpec | scheduler_cli.py:499 | `([+-]\d+)$` matches at `i` exactly when a sign there is followed by one or more digits that run to the end of the text, or to a single newline that ends it |
| Backfill.ParseTrailingOffset | scheduler_cli.py:496-505 | a body without a listed offset that ends in a sign and digits, or in those and a newline, gives that signed offset and the text before the sign |
| Backfill.NoListedOffset | scheduler_cli.py:483-487 | a text in which no sign is followed by 1, 2, 3 or 7 contains none of the listed offsets |
| Backfill.OffsetBeforeNewline | scheduler_cli.py:496-505 | `yyyy-MM-dd-5` followed by a newline is five days back with the format `yyyy-MM-dd` |
| Backfill.ThirtyShadowed | scheduler_cli.py:484-493 | `-30` and `+30` are never the offset found |
| Backfill.MinusOneFirst | scheduler_cli.py:484-493 | a body containing `-1` takes that offset |
| Backfill.ListedOffsetWins | scheduler_cli.py:484-493 | `${yyyy-MM-dd-10}` reads as offset -1 with format `yyyy-MM-dd0` |
| Backfill.IsoPythonFormat | scheduler_cli.py:518-519 | the usual format is rendered as ISO |
| Backfill.PythonFormatCaseBlind | scheduler_cli.py:518-519 | the conversion ignores case: every format gives what its lower-case form gives |
| Backfill.UpperIsoPythonFormat | scheduler_cli.py:518-519 | an upper-case ISO format is rendered as ISO |
| Backfill.YesterdayOffset | scheduler_cli.py:484-493 | the usual template body gives offset -1 and the ISO format |
| Backfill.YesterdayTemplate | scheduler_cli.py:474-545 | `${yyyy-MM-dd-1}` is the day before, in ISO form |
| BackfillRun.RewriteEntry | scheduler_cli.py:474-550 | a template becomes its date text, stored with its `_no_dash` companion; other values unchanged |
| BackfillRun.RewriteWorkflowParams | scheduler_cli.py:471-550 | the in-place loop gives the functional rewrite |
| BackfillRun.FirstOverflow | scheduler_cli.py:513 | the first entry whose offset leaves `datetime`'s range |
| BackfillRun.RewriteParamsSpec | scheduler_cli.py:471-550 | keys kept in place, templates replaced by their date texts, failure exactly at the first overflow |
| BackfillRun.RewriteFrame | scheduler_cli.py:544-550 | a date parameter nobody writes keeps its value |
| BackfillRun.RewriteLands | scheduler_cli.py:544-550 | a template's text is a date parameter afterwards, with its `_no_dash` companion |
| BackfillRun.TaskValueToken | scheduler_cli.py:561-565 | a lone reference is replaced as the general substitution would |
| BackfillRun.TaskValueTwoRefs | scheduler_cli.py:561-569 | `${a}_${b}` is read as one reference to `a}_${b` and stays as written |
| BackfillRun.TaskValuePlain | scheduler_cli.py:559-571 | non-strings and strings without `${` are unchanged |
| BackfillRun.TaskValueFills | scheduler_cli.py:571-590 | references to date parameters replaced, others kept |
| BackfillRun.TaskParams | scheduler_cli.py:553-590 | every task parameter rewritten, in order |
| BackfillRun.RewriteTaskParams | scheduler_cli.py:557-590 | the in-place loop gives `TaskParams` |
| BackfillRun.BuildCommandTable | scheduler_cli.py:429-434 | the loop builds the id-to-command table |
| BackfillRun.CommandTableSpec | scheduler_cli.py:429-434 | an id is in the table exactly when a task with a custom command has it, with the last one's command |
| BackfillRun.CommandTextPlain | scheduler_cli.py:599-609 | a command without '{' is unchanged |
| BackfillRun.ApplyCommands | scheduler_cli.py:594-613 | the first task of each listed id gets the rewritten command, the others stay |
| BackfillRun.CommandsApplied | scheduler_cli.py:594-613 | with distinct ids every custom command is rewritten and no other task changes |
| BackfillRun.PrepareSpec | scheduler_cli.py:440-643 | a bad date point raises; a prepared point runs with custom values over the date parameters |
| BackfillRun.AllSucceeded | scheduler_cli.py:650 | true exactly when every result has status "success", none where a status is missing first |
| BackfillRun.EntriesSpec | scheduler_cli.py:649-711 | a point is listed exactly when its run did not fully succeed; twice exactly when some task failed and the failure summary then raised (a missing status, or a failed result whose parameters are not a dictionary); once otherwise |
| BackfillRun.FailedPointsStop | scheduler_cli.py:436-440 | once a point raises outside the `try`, that exception is the loop's outcome |
| BackfillRun.RunDatePoints | scheduler_cli.py:436-717 | the date loop gives the failed points, counted |
| BackfillRun.FailedPointsRaise | scheduler_cli.py:436-643 | the loop raises exactly when preparing a point raises, with the first such exception |
| BackfillRun.FailedPointsListed | scheduler_cli.py:646-711 | failed points are points; none exactly on a dry run or when every point succeeded |
| BackfillRun.ScopeSpec | scheduler_cli.py:370-383 | job ids win over the start task, one id per stripped piece |
| BackfillRun.RunBackfill | scheduler_cli.py:314-753 | the whole function as a composition of the parts above |
| BackfillRun.BackfillSpec | scheduler_cli.py:337-753 | false on a refusal or a declined confirmation, true on a dry run, else true exactly when every point succeeded |

## Left out

- `stream_output` (scheduler/task.py:42-110): reader threads and polling; concurrency is not modelled.
- Process launching, temporary files, reading SQL files and `os.path` path resolution in every task `execute`: only the argument vectors are modelled, with resolved paths as parameters (`initPaths`, `sqlFile`, `script`). The `ValueError` for a missing init script file is I/O and is left out.
- `PythonTask._resolve_custom_command` (scheduler/task.py:482-521): it depends on `str.format` with a type object built at run time.
- scheduler/alert.py (the Feishu webhook message and its HTTP call) is not part of this model: an alert is the request value `Engine.Alert` computes.
- `DAG.visualize`, `Workflow.visualize` and `utils.visualize_workflow`: graph rendering.
- The command-line surface: `parse_args`, `load_json_file`, printing, `show_workflow_info`, `visualize_workflow`, `main` and `sys.exit`. The confirmation `input()` is the parameter `answer`, and `run_workflow` is not modelled.
- Clocks: `now` is a parameter. The history record drops `start_time`, `end_time` and `duration`.
- `WorkflowConfig.from_json`, `load_workflow_from_config` on a file path, `save_json_file`, `ensure_dir` and `get_timestamp`: file I/O.
- `Workflow.get_execution_history` returns a copy of a list; the model exposes the field `executionHistory`.
- Text.IsDigit: ASCII digits only, where Python's `\d` and `int()` also accept other Unicode digits.
- Text.IsSpace: ASCII whitespace only, where `str.strip()` also removes other Unicode whitespace.
- Params.Resolve: Python's recursion limit is the depth budget `depth`, and running out of it is `None`, reported with one fixed message (`Engine.RecursionText`).
- Params.DateText: a date shifted outside years 1 to 9999 is formatted as it is, where Python raises `OverflowError` (for example `${yyyy-MM-dd+4000000}`). The backfill's own shift (`Backfill.Shift`) does model the overflow.
- DateExpr.GetDate: for the same reason `get_date` (scheduler/utils.py:44-45) formats a date outside years 1 to 9999 where `now + timedelta(days=...)` raises `OverflowError`; `DateExpr.GetDateToday` and `DateExpr.GetDateCompose` are stated for this unbounded shift.
- Calendar.Strftime: only the directives `%Y %y %m %d %H %M %S %%` are interpreted. `%Y` is unpadded below year 1000, as glibc renders it. Other directives are copied as text.
- Config.TaskFrom: the task gets a copy of the configuration's `params` dictionary. In Python it is the same dictionary, so `resolve_params` also changes the configuration.
- Config.DepEdgesSpec: a `from` or `to` that is null raises `AttributeError` in Python; the model's dependency entries cannot hold a null.
- Dag.Kahn: the `defaultdict` reads of `topological_sort` add empty entries to `reverse_dependencies`; absent and empty are the same in the model.
- Dag.Closure and Dag.DrainLevel: Python's set iteration order is left open as an arbitrary choice.
- BackfillRun.CommandTable: a `custom_command` key holding null enters Python's table, and the rewrite then raises on `None` (`replace` or `in`) out of `run_backfill` (scheduler_cli.py:431-433, 604-607). The model's task configuration cannot hold a null command, so such a task is skipped as if it had none.
- BackfillRun.CommandText: a `script_path` key holding null makes `replace` raise `TypeError` (scheduler_cli.py:607-609); the model's absent and null script paths are both replaced by "".
- BackfillRun.RewriteTasks: a task whose `params` is null makes `task_params.items()` raise `AttributeError` (scheduler_cli.py:555-557); the model's task parameters are always a dictionary.
- BackfillRun.WorkflowFile: the workflow file is a JSON object whose `params` is a dictionary and whose `tasks` is a list. In Python, `"params": null` passes the `in` test, `.get("params", {})` gives None, and `items()` raises `AttributeError` out of `run_backfill` at the first date point, dry run included (scheduler_cli.py:471-473). `"tasks": null` makes the `for` over `get("tasks", [])` raise `TypeError` before the date loop (scheduler_cli.py:430, again at 555). The configuration loader's `params or {}` and `tasks or []` (scheduler/config.py:65-66) run only later. The model cannot hold these nulls; it reads them as empty and carries on.
- BackfillRun.ParamsNotMapping: a result's `"params"` kept only as `Other` is taken to be a dictionary; a list or another object without `items()` would make the failure summary raise as well.
- Text.Lower: ASCII letters only, where `str.lower()` also lowers other letters (the Kelvin sign becomes `k`, for example). This affects the granularity (scheduler_cli.py:343) and the template formats (scheduler_cli.py:518-528).
- Config.ConfigOf: a `name` key holding null passes the `'name' not in config_data` test (scheduler/config.py:274-278) and builds a workflow named None. The model's configuration object cannot hold a null name and reports the missing-name `ValueError` instead.
- Backfill.BackfillConfig: a key that is present but holds null is read as missing. In Python, a null `start_date` or `end_date` passes the `in` test (scheduler_cli.py:342) and `strptime(None)` then raises a `TypeError` that the range helpers' `except ValueError` does not catch (scheduler_cli.py:117-118, 139-140, 166-167). A null `date_granularity` makes `.lower()` raise `AttributeError` (scheduler_cli.py:343). A custom date that is not a string fails later in `strptime` (scheduler_cli.py:443). The model's configuration cannot hold these values.
- Backfill.DateBundle: `strftime` of a string format never fails in the model, so the fallback to the date point (scheduler_cli.py:455-458) is taken only for a format that is not a string.

Behaviour of the code that the model reproduces as written:

- `Run.SelectTasks`: with `only_tasks`, the `start_from` and `end_at` filters still apply, intersected with it (scheduler/dag.py:489-525).
- `SqlSplit.BlockCommentOpens`: a line with `/*` and no `*/` is dropped entirely. The text before `/*` is computed but then skipped along with the line (scheduler/utils.py:185-194).
- `Engine.LenientRecord`: without fail-fast the status is SUCCESS even when tasks failed, and the last failure is still recorded.
- `BackfillRun.AllSucceeded`: the built-in tasks' results have no `"status"` key. Reading it raises `KeyError` in `all()` at the first result, so the point counts as failed and the `except` clause lists it once. A second listing needs results that carry a `"status"`, as only a Python callable can return: some task failed, and then the failure summary raised on a later result without a status or on a failed result whose `"params"` is not a dictionary (`BackfillRun.EntriesSpec`).
- `Backfill.ListedOffsetWins`: the offset table is searched by substring, so `${yyyy-MM-dd-10}` reads as offset -1.
- `Config.ConfigKind`: the configuration type `hive-sql` creates the task whose `task_type` is `hive`.
