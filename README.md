# Forge agent orchestrator and project analytics, in Dafny

This project models the coordination core of NXTG-Forge and proves properties about
it. The core is the agent orchestrator (`forge/agents/orchestrator.py`) and the metric
store behind project analytics (`forge/analytics.py`).

The orchestrator routes development tasks to one of six specialised agent pools:
lead architect, backend master, CLI artisan, platform builder, integration specialist
and QA sentinel. Routing is a keyword decision list over the lower-cased description,
with a fallback on the task type. The orchestrator keeps:
- the table of active tasks,
- the set of completed task ids,
- a FIFO queue of agent-to-agent messages,
- the pools with a registered execution callback,
- the interaction log used for learning.

What it does with them:
- It runs tasks one at a time when orchestration is disabled.
- It decomposes a feature into a design → implementation → testing chain.
- It applies handoff messages, which reassign a task to another pool.

The analytics store is an append-only list of metric data points. It can be queried by
name, time window and tags, sorted by timestamp. It compares the first half of a
window with the second to report a trend, and summarises a window per metric name.

Layout, one Dafny module per file:
- `common.dfy`: `Option`, `Result` (a returned value or a raised failure), dynamically typed dictionary values, and timestamps.
- `text.dfy`: ASCII lower-casing, substring search and Python's string order.
- `sorting.dfy`: Python's stable `sorted` on a string key.
- `agents.dfy`: agent pools and the agent table.
- `routing.dfy`: the keyword router.
- `tasks.dfy`: tasks, messages, the dependency gate, decomposition and handoffs.
- `execution.dfy`: executing one task, and the sequential loop.
- `orchestrator.dfy`: the `Orchestrator` class.
- `analytics.dfy`: metrics and the `ProjectAnalytics` class.

Python objects whose fields the orchestrator updates in place (tasks, the orchestrator
itself, the analytics store) are handled as follows:
- The two stores are Dafny classes whose methods modify their fields.
- A task is a value kept in the map `activeTasks`. A task passed to an operation stands
  for the active entry under its id, when there is one: that entry is what the operation
  reads, and its new value is written back under the id.
- `taskOrder` records the insertion order of the Python dictionary. `list_tasks` needs
  it to break ties between equal priorities.

Inputs the code draws from its environment are parameters of the model:
- the uuid prefix of a new task;
- clock readings (a stamp is the ISO reading followed by `Z`);
- message ids;
- the outcome of an agent's callback (`Ok(payload)` or `Raised(message)`);
- the durations between two stamps.

## Model

| member | source | states |
|---|---|---|
| Agents.FromValue | forge/agents/orchestrator.py:22-30 | Parsing a pool name succeeds only on the value of that pool |
| Agents.FromValueInvertsValue | forge/agents/orchestrator.py:22-30 | Every pool's value parses back to that pool |
| Agents.FallbackAgents | forge/agents/orchestrator.py:176-209 | The built-in agent table has exactly six entries |
| Agents.FallbackCoversEveryPool | forge/agents/orchestrator.py:176-209 | The built-in table covers every pool, each with the skill file `.claude/skills/agents/<pool>.md` |
| Agents.ConfiguredTable | forge/agents/orchestrator.py:148-170 | Every pool in the table built from configured entries comes from some entry that names it, described as that entry says |
| Agents.ConfiguredTableKeys | forge/agents/orchestrator.py:148-166 | The table built from configured entries has as keys exactly the pools some valid entry names |
| Agents.ConfiguredTableLastWins | forge/agents/orchestrator.py:148-166 | A pool named by several entries takes its role, capabilities and skill file from the last of them, with the titled name and default skill file where the entry omits them |
| Agents.LoadAvailableAgents | forge/agents/orchestrator.py:139-209 | With no valid entry the result is the built-in table. Otherwise its keys are exactly the named pools, each described by the last entry naming it |
| Text.Lower | forge/agents/orchestrator.py:224 | Lower-casing keeps the length, maps each character by ASCII lower-casing and leaves no capital letter |
| Text.ContainsIffOccurs | forge/agents/orchestrator.py:224-261 | The substring test `kw in text` holds iff `kw` occurs at some position of `text` |
| Text.LessEqTotalOrder | forge/agents/orchestrator.py:348 | Python's string comparison is a total order: reflexive, total, antisymmetric and transitive |
| Sorting.SortBy | forge/agents/orchestrator.py:348 | Sorting on a string key yields a permutation of the input, ordered by the key in the requested direction |
| Sorting.SortIsStable | forge/analytics.py:163 | The elements that share a key keep their relative order |
| Routing.AssignAgent | forge/agents/orchestrator.py:211-273 | The CLI, platform and integration pools are chosen only when the description mentions one of their keywords; the backend pool only on a backend keyword or type "feature"; the QA pool only on a QA keyword or type "bugfix"/"refactor" |
| Routing.GetRecommendedAgent | forge/agents/orchestrator.py:366-381 | A recommendation names the backend or QA pool only when the context mentions one of that pool's keywords |
| Routing.AssignAgentIsDecisionList | forge/agents/orchestrator.py:211-273 | `assign_agent` is the first matching rule of the six ordered keyword groups on the lower-cased description, and otherwise the fallback on the task type |
| Routing.FirstMatchWins | forge/agents/orchestrator.py:224-261 | When rule i matches and no earlier rule does, the decision list returns rule i's pool |
| Routing.FirstMatchNone | forge/agents/orchestrator.py:224-261 | The decision list finds nothing iff no keyword of any rule occurs in the text |
| Routing.ArchitectureAlwaysWins | forge/agents/orchestrator.py:224-232 | A description mentioning "architect", "design", "pattern" or "structure" in any case goes to the lead architect, whatever else it mentions and whatever its type |
| Routing.NoKeywordFallsBackOnType | forge/agents/orchestrator.py:263-273 | Without any keyword, type "feature" goes to the backend, "bugfix"/"refactor" go to QA, and everything else to the architect (each an iff) |
| Routing.RecommendationIsKeywordOrArchitect | forge/agents/orchestrator.py:366-381 | `get_recommended_agent` returns the first keyword match, or the lead architect when nothing matches |
| Routing.DesignTaskGoesToArchitect | tests/unit/agents/test_orchestrator.py:116-126 | The feature "Design system architecture" is routed to the lead architect |
| Tasks.NewTask | forge/agents/orchestrator.py:56-71 | A new task is pending, with no subtasks, messages, timestamps or result |
| Tasks.AllIn | forge/agents/orchestrator.py:73-82 | The dependency test holds iff every listed dependency is in the completed set |
| Tasks.Task.CanStart | forge/agents/orchestrator.py:73-82 | `can_start(C)` holds iff the task's dependencies are a subset of C |
| Tasks.CanStartIsMonotone | forge/agents/orchestrator.py:73-82 | A task without dependencies may start at once, and stays startable as C grows |
| Tasks.Decomposition | forge/agents/orchestrator.py:652-682 | Only a feature has sub-tasks. Every sub-task is pending, inherits the parent's priority and records the parent's id |
| Tasks.DecompositionShape | forge/agents/orchestrator.py:652-682 | A feature yields exactly three steps `id-arch`, `id-impl` and `id-test`, with distinct ids, routed to architect, backend and QA in that order |
| Tasks.DecompositionIsAChain | forge/agents/orchestrator.py:652-682 | The design step may start at once; implementation may start iff design completed; testing iff implementation completed |
| Tasks.InsertedKeys | forge/agents/orchestrator.py:684-686 | Filing tasks by id adds exactly their ids and leaves every other entry unchanged |
| Tasks.InsertedLastWins | forge/agents/orchestrator.py:684-686 | Each id holds the last task filed under it (duplicates overwrite silently) |
| Tasks.DecompositionFiled | forge/agents/orchestrator.py:684-686 | Filing a decomposition adds the three step ids with their tasks for a feature and changes nothing otherwise |
| Tasks.ApplyHandoff | forge/agents/orchestrator.py:546-562 | One handoff keeps the set of tasks. The task it names is reassigned to the recipient and records the message last; every other task is unchanged |
| Tasks.ApplyMessages | forge/agents/orchestrator.py:510-544 | Processing messages keeps the set of tasks, changes only a task's agent and message log, and only appends to that log |
| Tasks.ApplyMessagesPerTask | forge/agents/orchestrator.py:510-562 | Processing a batch of messages keeps the set of tasks. A task's agent is that of the last handoff naming it (unchanged if none), and its message log grows by exactly those handoffs, in order |
| Tasks.InvalidHandoffChangesNothing | forge/agents/orchestrator.py:546-562 | A handoff whose `task_id` is missing, not a string, empty or not active changes nothing |
| Execution.Attempt | forge/agents/orchestrator.py:383-423 | Running a task changes only its status, stamps and result. It is started with the start stamp and ends "completed" iff the outcome is a success (then with the completion stamp) and "failed" iff it raised (then keeping its completion stamp) |
| Execution.Execute | forge/agents/orchestrator.py:383-429 | One execution on the orchestrator state keeps the set of tasks and every task's id and agent, adds at most the task's id to the completed set, and appends at most one record to the log |
| Execution.ExecuteOutcome | forge/agents/orchestrator.py:383-429 | For a task value that is the active entry under its id, one execution: on success the task ends "completed" with the payload, its id joins the completed set and (if learning) one record is logged. On failure it ends "failed" with `{"error": msg}` and the completed set and log stay as they were. No task enters or leaves the table, and no other entry changes |
| Execution.LoggedRunsSucceeded | forge/agents/orchestrator.py:573-614 | For a task value that is the active entry under its id, a logged record belongs to a successful run: marked successful, status "completed", with a known duration |
| Execution.ExecuteAll | forge/agents/orchestrator.py:442-448 | The sequential loop never adds or removes active tasks and changes no task's id or agent |
| Execution.ExecuteAllReturns | forge/agents/orchestrator.py:442-448 | For task values that are the active entries under their ids, when the loop returns, it returns one result per task in input order, each that task's outcome, and all their ids are completed |
| Execution.ExecuteAllRaises | forge/agents/orchestrator.py:425-448 | For task values that are the active entries under their ids, when the loop raises, some task k raised that message, every earlier task succeeded, and exactly the earlier tasks' ids were added to the completed set |
| Execution.ExecuteAllStopsAtFailure | forge/agents/orchestrator.py:425-448 | After the first failure, the remaining tasks change nothing |
| Orchestration.Orchestrator.constructor | forge/agents/orchestrator.py:92-114 | A fresh orchestrator has empty task, completed, queue, callback and log state. Its agent table is built as above. It defaults to 3 parallel tasks, a 300 s handoff timeout, orchestration on and learning off |
| Orchestration.Orchestrator.Put | forge/agents/orchestrator.py:304 | Filing a task under its id: a new id is appended to the insertion order, an existing id is overwritten in place; no other field changes |
| Orchestration.Orchestrator.CreateTask | forge/agents/orchestrator.py:275-310 | The new task is pending and carries the given fields with defaults "feature", "medium" and `{}`. Its agent is `assign_agent` of its description and type. It is filed under its id, and every other entry is unchanged. The completed set, queue, log, callbacks, agent table and settings are unchanged |
| Orchestration.Orchestrator.UpdateTaskStatus | forge/agents/orchestrator.py:350-364 | An unknown id returns None and changes nothing; a known id changes only that task's status and returns the updated task. No other field changes |
| Orchestration.Orchestrator.Listing | forge/agents/orchestrator.py:343 | The values of the task table, in insertion order, are exactly the active tasks |
| Orchestration.Orchestrator.ListTasks | forge/agents/orchestrator.py:334-348 | Exactly the active tasks whose status equals the filter (all of them for an absent or empty filter), each once, sorted by descending priority string |
| Orchestration.ListTasksKeepsFilingOrder | forge/agents/orchestrator.py:343-348 | Tasks of equal priority are listed in the order they were filed |
| Orchestration.PriorityTiersInStringOrder | forge/agents/orchestrator.py:348 | Priorities compare as strings, so "medium" is listed before "low", which is listed before "high" |
| Orchestration.WithStatus | forge/agents/orchestrator.py:345-346 | The status filter keeps exactly the tasks it selects |
| Orchestration.Orchestrator.RegisterAgentCallback | forge/agents/orchestrator.py:627-637 | The pool has a callback afterwards. The tasks, completed set, queue, log, agent table and settings are unchanged |
| Orchestration.Orchestrator.LogInteraction | forge/agents/orchestrator.py:573-596 | Exactly one record is appended to the interaction log, describing the task at that moment. No other field changes |
| Orchestration.Orchestrator.ExecuteTask | forge/agents/orchestrator.py:383-429 | The task run is the active entry under the given id, if there is one. The ledger of active tasks, completed ids and log moves exactly as `Execute` says (see `Execution.ExecuteOutcome`). The raised or returned outcome is reported. The insertion order, queue, callbacks, agent table and settings are unchanged |
| Orchestration.Orchestrator.ExecuteSequentially | forge/agents/orchestrator.py:442-448 | With orchestration disabled, the loop's final state and result are those of the sequential fold `ExecuteAll` (see the lemmas about it). Each step runs the task's current active entry. The insertion order, queue, callbacks, agent table and settings are unchanged |
| Orchestration.Orchestrator.SendMessage | forge/agents/orchestrator.py:478-508 | The message is appended to the end of the queue. No other field changes |
| Orchestration.Orchestrator.HandleHandoff | forge/agents/orchestrator.py:546-562 | The task table changes exactly as one handoff prescribes (see `Tasks.ApplyHandoff`). No other field changes |
| Orchestration.Orchestrator.ProcessMessages | forge/agents/orchestrator.py:510-544 | The whole queue is returned in FIFO order and emptied, and the task table ends as the fold of the handoffs over it. No other field changes |
| Orchestration.Orchestrator.DecomposeTask | forge/agents/orchestrator.py:639-688 | The active entry under the parent's id (or the parent itself) is decomposed and records the sub-task ids. The sub-tasks are filed by id. Each new id is appended to the insertion order in decomposition order, so with all three ids new the order gains exactly arch, impl, test. No other field changes |
| Orchestration.Orchestrator.FileTasks | forge/agents/orchestrator.py:685-686 | The loop filing sub-tasks leaves the table as `Inserted` of them and appends each new id to the insertion order in turn; no other field changes |
| Orchestration.FilingFreshIds | forge/agents/orchestrator.py:684-686 | Filing distinct ids that are all new appends them to the insertion order, in order |
| Orchestration.DecompositionFiledLast | forge/agents/orchestrator.py:652-686 | When none of the sub-task ids is active, the decomposition's ids go to the end of the insertion order in the order design, implementation, testing |
| Analytics.Filter | forge/analytics.py:147-161 | The filtered list holds exactly the metrics passing every supplied filter |
| Analytics.Halves | forge/analytics.py:185-187 | The two halves concatenate to the list, the first has `len // 2` points, and both are non-empty with two points or more |
| Analytics.ChangePercent | forge/analytics.py:192 | The change is 0 when the first average is 0, and otherwise the percentage difference from it |
| Analytics.DirectionOf | forge/analytics.py:194-199 | "stable" iff the change is strictly between -5 and 5; "up" iff it is at least 5; "down" iff it is at most -5 |
| Analytics.TrendOf | forge/analytics.py:181-208 | No trend with fewer than two points; otherwise a trend for that name and period whose previous value is the average of the first `len // 2` points, whose current value is the average of the rest, whose change is the percentage change between them (0 when the previous average is 0), and whose direction is that change's direction |
| Analytics.ConstantSeriesIsStable | forge/analytics.py:181-208 | A constant series yields a stable trend with change 0 and both averages equal to the constant |
| Analytics.DirectionAgainstBaseline | forge/analytics.py:192-199 | With a positive first average, the trend is up iff the second average is at least 5% higher, and down iff it is at least 5% lower |
| Analytics.WithName | forge/analytics.py:259-263 | The group of a name holds exactly the window's metrics with that name, and no more metrics than the window |
| Analytics.GroupedSpec | forge/analytics.py:259-263 | The name list is duplicate-free; the grouping's keys are exactly those names and each group is that name's metrics in order |
| Analytics.NamesOfOccur | forge/analytics.py:259-263 | The name list holds exactly the names occurring in the window |
| Analytics.CountsSumToTotal | forge/analytics.py:259-291 | The per-name counts add up to the number of metrics |
| Analytics.SummaryCountsAddUp | forge/analytics.py:259-291 | The per-name counts sum to `total_metrics`, and `unique_metrics` is the number of distinct names |
| Analytics.MinValue | forge/analytics.py:273 | The minimum is one of the values and bounds all of them from below |
| Analytics.MaxValue | forge/analytics.py:274 | The maximum is one of the values and bounds all of them from above |
| Analytics.AverageBetweenExtremes | forge/analytics.py:273-275 | A group's average lies between its minimum and maximum |
| Analytics.StatsOf | forge/analytics.py:269-284 | A summary entry counts its group and takes the last value as current; its min and max are values of the group that bound every value, and its average is the sum over the count and lies between them; it has a trend exactly when one was computed, holding that trend's direction and change |
| Analytics.ProjectAnalytics.constructor | forge/analytics.py:46-57 | The store starts with exactly the previously stored metrics |
| Analytics.ProjectAnalytics.RecordMetric | forge/analytics.py:102-127 | The new metric, with the given name and value and empty tags and metadata by default, is appended at the end; earlier metrics are unchanged |
| Analytics.ProjectAnalytics.GetMetrics | forge/analytics.py:129-163 | Exactly the stored metrics passing every supplied filter, each as often as stored, sorted by ascending timestamp; the store is not changed |
| Analytics.GetMetricsKeepsRecordingOrder | forge/analytics.py:163 | Metrics with equal timestamps come out in recording order |
| Analytics.ProjectAnalytics.CalculateTrend | forge/analytics.py:165-208 | None iff fewer than two metrics of that name lie in the window; otherwise a trend for that name and period comparing the average of the later half of those metrics, in timestamp order, with the average of the earlier half, with the percentage change between them and its direction |
| Analytics.ProjectAnalytics.GroupByName | forge/analytics.py:258-263 | The grouping loop yields the per-name groups and the names in order of first occurrence |
| Analytics.ProjectAnalytics.SummariseGroups | forge/analytics.py:265-284 | The statistics loop yields one entry per grouped name |
| Analytics.ProjectAnalytics.GenerateSummary | forge/analytics.py:243-295 | The summary records the period and window stamps. `total_metrics` is the window's size and `unique_metrics` its number of distinct names. It has one entry per name, computed from that name's metrics in timestamp order and that name's trend |

## Left out

- Concurrency: the semaphore-bounded parallel branch of `execute_parallel`, the `gather`, and its 0.1 s polling on dependencies. Only the branch taken when orchestration is disabled is modelled.
- Orchestration.Orchestrator.ProcessMessages: drains the whole queue. The wait timeouts and the deadline of `process_messages` are not modelled, and neither are producers adding messages while it runs.
- File and configuration I/O: reading the configuration file, saving the interaction log, loading and saving metrics, `export_report`, `get_agent_context`, and the `record_test_coverage`, `record_quality_score` and `record_velocity` helpers. The constructors take the already-parsed configuration and stored metrics.
- `get_coverage_trend`, `get_velocity_trend` and `get_quality_score_trend` are `calculate_trend` for the fixed names "test_coverage", "velocity" and "quality_score" (default periods 30, 14 and 30 days). They are not modelled separately; `CalculateTrend` covers them.
- `suggest_agent`: it builds an orchestrator from whatever configuration is in the working directory. The router it calls is modelled.
- `_handle_query` only writes a log line; in the model a query message changes nothing.
- uuid generation, `utcnow`, ISO parsing of stamps in `_calculate_duration`, and the difference between two datetimes are inputs: the task id, clock readings, and `seconds`.
- `calculate_trend` and `generate_summary` compute their window from `utcnow()` minus `period_days` days. The model takes the window's start and end readings as inputs. The source reads the clock again inside each `calculate_trend` call of `generate_summary`; the model uses the same window there.
- Floating point: metric values, averages, percentages and durations are real numbers, so rounding is not modelled.
- Callbacks are abstract. A registered callback's behaviour is the per-run outcome `Run.callback`, so registering a second callback for the same pool is indistinguishable from the first.
- Orchestration.Orchestrator.ExecuteTask: a task is a value, not a shared object. A task passed in stands for the active task filed under its id: that entry is what runs, and its updated value is written back there. A second task object with the same id as an active one is not modelled. The same holds for `DecomposeTask` and each step of `ExecuteSequentially`. The intermediate "in_progress" state is visible only to the callback, which the model does not run.
- Task subtasks are stored as the list of sub-task ids rather than the task objects.
- Dictionary values other than strings (`content`, `metadata`, results) are modelled only as "not a string". A handoff needs a non-empty string `task_id`; any other value counts as invalid.
- `.lower()` is ASCII lower-casing; Unicode case mapping is not modelled.
- The returned summary is a map, so the order of its keys is not modelled.
- Logging calls are not modelled.
- Agents.AgentEntry: a `role`, `capabilities` or `skill_file` key that is present but holds null or a value of another type is not modelled. The source stores such a value as it is; the model only has absent keys, which take the defaults.
- Saving the interaction log creates its directory outside the `try` that guards the write (forge/agents/orchestrator.py:617-620). If that fails after a successful run, the source marks the task failed although its id is already in the completed set and the run is already logged. This failure path is not modelled: saving never fails in the model.
