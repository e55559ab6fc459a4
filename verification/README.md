# techproject core in Dafny

A model of the two parts of the Moodle `mod_techproject` plugin that carry
real logic:

- **The AI task generator** (`generate_tasks_adhoc`). It is an ad-hoc
  background job. It checks its custom data, builds a prompt, asks the text
  generator for a JSON task list and checks the reply's shape. Then, inside
  one transaction, it creates root tasks and their subtasks. Each subtask is
  linked to its parent in the dependency table.
- **The course dashboards** (`dashboard.php`). This covers the "closed"
  rule, the memoised status-label lookup and the percentage clamp. It also
  covers the three task queries, written as filters over the task table.
  Last come the loops that fold the fetched rows into the self view's and
  the manager view's figures and histograms.

Files:

- `php.dfy` (module `Php`): the PHP behaviours the core leans on. These are
  `trim()`, `empty()`, the `(string)` cast, integer-to-text conversion and
  the values `json_decode(..., true)` returns.
- `ordered_map.dfy` (module `OrderedMap`): PHP arrays used as
  dictionaries. Keys keep their first-insertion order; an update stays in
  place and a new key is appended. The module also holds the counter idiom
  the dashboard uses (`if (empty($c[$k])) $c[$k] = 0; $c[$k]++;`) and its
  fold `Tally`.
- `task_store.dfy` (module `TaskStore`): the `techproject_task` and
  `techproject_task_dependency` rows. The class `Store` holds both tables
  and the auto-increment counter the inserts draw ids from.
- `generate_tasks.dfy` (module `GenerateTasks`): the job. `Execute`,
  `CreateTree`, `CreateSubtasks` and `CreateTaskFromPayload` are methods on
  the store. Each is proved equal to a function on table values
  (`Materialise`, `MaterialiseSubtasks`, `CreateTask`). What one committed
  run adds is then proved about those functions (`MaterialiseGenerated`).
- `dashboard.dfy` (module `Dashboard`): the dashboards. `StatusLabel`,
  `SelfView`, `ManagerView` and `ClosedByWorkerWeek` are methods with
  loops. Each is proved equal to a fold over the rows. Lemmas then state
  what those folds count.

The clock, the calendar, the provider's answer, the JSON decoder, the
localised strings, `format_string`, `s()` and `fullname()` come in as
parameters.

### Where the model follows the code rather than the design

- A reply of `{"tasks": []}` is refused with `aibadresponse`. It does not
  commit zero tasks, because the code tests the list with `empty()`.
- A dependency edge has the parent as `slave` and the new child as
  `master`.
- A title of `"0"` counts as missing, because `empty("0")` holds. A blank
  title makes `create_task_from_payload` return 0 silently; no error is
  raised.
- The manager loop skips rows whose project has no metadata, but it never
  meets one. The page fills the project ids the query filters on and the
  metadata from the same list of projects, so every selected row has
  metadata, and the total equals the number of rows the loop folds over.
- The week query does not apply the manager's assignee filter.

## Model

| member | source | states |
|---|---|---|
| `Php.Trim` | classes/task/generate_tasks_adhoc.php:47 | trim() yields a run of the text with only trim characters cut before and after it; the run is "" exactly when the text is all whitespace, and otherwise neither starts nor ends with a trim character |
| `Php.CastOfNonEmpty` | classes/task/generate_tasks_adhoc.php:130 | a value that passes empty() never casts to "" or "0" |
| `Php.IntTextInjective` | dashboard.php:240 | two different integers never give the same array key |
| `Php.NonEmptyArrayHasValues` | classes/task/generate_tasks_adhoc.php:66-71 | a non-empty array gives the foreach at least one entry |
| `OrderedMap.PutFacts` | dashboard.php:409-422 | `$m[$k] = $v` makes k read v and leaves every other key's value and position alone; the keys become the old ones plus k, and they stay distinct |
| `OrderedMap.IncrementIsBump` | dashboard.php:255-258 | the counter idiom (reset an empty slot to 0, then ++) adds exactly one to k's count |
| `OrderedMap.BumpFacts` | dashboard.php:258 | one increment adds one to k's count and to the total, and changes no other count |
| `OrderedMap.TallyCounts` | dashboard.php:249-259 | a counter built by the idiom maps each item to its number of occurrences; its keys are exactly the items, none twice, and its counts sum to the number of items |
| `TaskStore.MaxOrdering` | classes/task/generate_tasks_adhoc.php:139-140 | the largest ordering in the (project, group, father) bucket, attained by a row of that bucket; 0 when the bucket is empty |
| `TaskStore.InsertKeepsWellFormed` | classes/task/generate_tasks_adhoc.php:167 | inserting under the counter's id keeps ids positive, increasing and below the counter |
| `TaskStore.InsertIfAbsentKeepsUnique` | classes/task/generate_tasks_adhoc.php:178-181 | check-then-insert keeps at most one edge per (project, slave, master) |
| `TaskStore.Store.InsertTask` | classes/task/generate_tasks_adhoc.php:167 | the record is appended under the next id, which is returned and is at least 1; the counter moves on by one and the dependency table is untouched |
| `TaskStore.Store.InsertDependency` | classes/task/generate_tasks_adhoc.php:180 | the edge is appended and nothing else changes |
| `GenerateTasks.Instructions` | classes/task/generate_tasks_adhoc.php:47 | the instructions are trim() of the raw text unless that text is "" or "0"; they are blank exactly when the raw text is "", "0" or all whitespace |
| `GenerateTasks.BuildPrompt` | classes/task/generate_tasks_adhoc.php:89-102 | the prompt is the localised template, then exactly "\n\n", then the instructions unchanged |
| `GenerateTasks.CallAi` | classes/task/generate_tasks_adhoc.php:104-124 | the text comes back exactly when the action class exists, the provider reports success and the generated text is not blank. Otherwise: `aiproviderunavailable` with no details, `aiproviderunavailable` carrying the provider's message, or `aibadresponse`, in that order |
| `GenerateTasks.PayloadTasks` | classes/task/generate_tasks_adhoc.php:65-68 | the reply is accepted exactly when `tasks` is a non-empty array; the loop then visits its values, at least one |
| `GenerateTasks.EmptyTaskListRejected` | classes/task/generate_tasks_adhoc.php:66-67 | an empty list, an empty object, a missing `tasks` key and an undecodable reply are all refused |
| `GenerateTasks.Prepare` | classes/task/generate_tasks_adhoc.php:40-68 | the job is skipped exactly when the custom data is missing, a project or user id is 0, the instructions are blank, or the project or its course module is missing. Past that gate, a provider error comes out unchanged as the failure; after a successful call, the job fails with `aibadresponse` exactly when the decoded reply's `tasks` is empty() or not an array; and otherwise it proceeds, with the job's non-zero ids and exactly the values of `tasks` as its entries |
| `GenerateTasks.TitleOf` | classes/task/generate_tasks_adhoc.php:130 | the title is "" when the field is empty(); otherwise it is trim() of the field's string cast. It is "" exactly when the field is empty() or all whitespace after the cast |
| `GenerateTasks.ZeroTitleIsEmpty` | classes/task/generate_tasks_adhoc.php:130-133 | a title of "0" or 0 counts as missing, while " 0 " becomes "0" |
| `GenerateTasks.CreateTask` | classes/task/generate_tasks_adhoc.php:130-133 | returns 0 and leaves the tables unchanged exactly when the title is blank; ids stay well formed either way |
| `GenerateTasks.CreateTaskRow` | classes/task/generate_tasks_adhoc.php:134-167 | a created task is appended after the existing rows, which are kept, under the next id, which is returned; the counter moves on by one. The row has the trimmed title, the description, the father, the fixed defaults for this user and project, and an ordering one above the bucket's maximum, so above every sibling |
| `GenerateTasks.CreateTaskLinks` | classes/task/generate_tasks_adhoc.php:172-181 | a root, or a blank title, leaves the dependency table as it was. A created child is linked to its father (slave) as master: the edge is added unless that triple exists, so it is present afterwards and edges stay unique |
| `GenerateTasks.CreateTaskFromPayload` | classes/task/generate_tasks_adhoc.php:126-186 | the store ends up exactly as CreateTask says, and the id it returns is CreateTask's |
| `GenerateTasks.CreateSubtasks` | classes/task/generate_tasks_adhoc.php:79-84 | the inner loop leaves the store as MaterialiseSubtasks says: each array entry is created under the parent, and other entries are skipped |
| `GenerateTasks.CreateRoot` | classes/task/generate_tasks_adhoc.php:72-85 | one pass of the outer loop leaves the store as MaterialiseRoot says: a non-array entry is skipped, the root is created, and its subtasks follow only when it was created and `subtasks` is a non-empty array |
| `GenerateTasks.CreateTree` | classes/task/generate_tasks_adhoc.php:70-86 | the outer loop leaves the store as Materialise says. Non-array entries are skipped; subtasks are created only under a created root and only when `subtasks` is a non-empty array |
| `GenerateTasks.Execute` | classes/task/generate_tasks_adhoc.php:34-87 | a skipped or failed run changes nothing and reports which it was; a run that passes both gates commits exactly Materialise's tables |
| `GenerateTasks.CreateStep` | classes/task/generate_tasks_adhoc.php:126-186 | one creation inside a run keeps the run's facts when a child's father is a root of the same run |
| `GenerateTasks.SubtasksGenerated` | classes/task/generate_tasks_adhoc.php:79-84 | the subtasks of a root of the run keep the run's facts and only append |
| `GenerateTasks.RootGenerated` | classes/task/generate_tasks_adhoc.php:71-85 | one entry of the outer loop keeps the run's facts |
| `GenerateTasks.MaterialiseGenerated` | classes/task/generate_tasks_adhoc.php:70-86 | a committed run only appends. Each new row has the fixed defaults for this user and project, a fresh id and created == modified. It is a root, or the child of a root from the same run, and ranks after its earlier siblings. Each new edge runs from such a root (slave) to its child (master), and edges stay unique |
| `GenerateTasks.ExamplePayload` | classes/task/generate_tasks_adhoc.php:65-71 | a reply with one task entry hands the loop that entry |
| `GenerateTasks.ExampleSteps` | classes/task/generate_tasks_adhoc.php:167-181 | on empty tables the root gets id 1, its child id 2, and one edge is added with slave 1 and master 2 |
| `GenerateTasks.ExampleBlankSubtask` | classes/task/generate_tasks_adhoc.php:130-133 | a subtask with a blank title adds nothing |
| `GenerateTasks.ExampleRoot` | classes/task/generate_tasks_adhoc.php:71-85 | for the entry "A" with subtasks "A1" and "", the outer loop's pass is the creation of "A" followed by that of "A1" under it; the blank subtask adds nothing |
| `GenerateTasks.ExampleRun` | classes/task/generate_tasks_adhoc.php:70-86 | the task "A" with subtasks "A1" and "" gives two rows and the single edge (1, 2) |
| `Dashboard.IsClosedExactly` | dashboard.php:114-125 | `IsClosed`, the model of techproject_dashboard_task_is_closed, holds exactly when done ≥ 100 or the lower-cased status is one of the six closed codes; the early exit for an empty status changes nothing |
| `Dashboard.ClosedExamples` | dashboard.php:114-125 | done 100 is closed whatever the status; done 99 with "" or "0" is not; "Closed" and "DONE" are closed; "in progress" is not |
| `Dashboard.OptionLabelsLastWins` | dashboard.php:41-43 | the fill loop gives a code a label exactly when some option carries that code; the label is that of the last such option |
| `Dashboard.StatusLabel` | dashboard.php:36-52 | afterwards the cache holds the project, other projects are unchanged, and a cached project is never reloaded. The label is the cached one when the code is present, otherwise the escaped code. A cache that matched the options still matches them |
| `Dashboard.CountStatus` | dashboard.php:403-407 | the lookup-and-count step adds one to the resolved label's count and keeps the cache matching the options |
| `Dashboard.ClampPercent` | dashboard.php:62 | the value lies in [0, 100], equals the input when that is already in range, and is 0 or 100 outside it |
| `Dashboard.ClampMonotone` | dashboard.php:62 | clamping keeps the order of its inputs and changes nothing a second time |
| `Dashboard.Select` | dashboard.php:211-240 | a selected row is a task of the table that passes the WHERE clause, joined with its assignee's user row; every such task with a user row is selected |
| `Dashboard.FilterNarrows` | dashboard.php:378-382 | with an assignee chosen, the manager query returns exactly that worker's rows from the unfiltered query, in order |
| `Dashboard.SelectIdsIncreasing` | dashboard.php:352-383 | a selection from the table lists each task id once, in increasing order |
| `Dashboard.FetchDistinct` | dashboard.php:240 | when no two rows share a first column, get_records_sql returns every row, in order, under its own key |
| `Dashboard.FetchByIdKeepsRows` | dashboard.php:383 | keyed by t.id, the fetched rows are exactly the selected rows |
| `Dashboard.CountOverdue` | dashboard.php:251-253 | the overdue count is at most the row count, and is 0 exactly when no task is past its enabled end date below 100 done |
| `Dashboard.SelfView` | dashboard.php:244-259 | gives the row count, the summed completion and the overdue count (at most the total). The status histogram counts each row under its resolved label, once per key, and sums to the total |
| `Dashboard.AverageDone` | dashboard.php:261 | the average is 0 with no tasks; otherwise average × count = summed completion |
| `Dashboard.SumDoneBounds` | dashboard.php:250 | with each figure in [0, 100], the sum lies in [0, 100 × n] |
| `Dashboard.AverageIsPercent` | dashboard.php:261 | with each figure in [0, 100], so is the average |
| `Dashboard.Kept` | dashboard.php:396-398 | the rows the manager loop keeps all have project metadata and are at most the fetched ones; when every project has metadata, all rows are kept |
| `Dashboard.KeptExactly` | dashboard.php:396-398 | the loop keeps exactly the rows whose project has metadata, each as often as it was fetched, so no row with metadata is skipped |
| `Dashboard.ClientStatsShape` | dashboard.php:409-422 | a client has an entry exactly when it has a kept row, no client twice, and the per-client task counts add up to the kept rows |
| `Dashboard.OfClientCount` | dashboard.php:422 | a client's rows are as many as its occurrences among the rows' clients |
| `Dashboard.ClientStatsCounts` | dashboard.php:409-421 | a client's {tasks, done, open} count exactly its own kept rows: their number, their summed completion and those below 100, so open ≤ tasks |
| `Dashboard.DayKeys` | dashboard.php:424-436 | a day enters the workday histogram exactly when some kept row is closed, has a non-zero modification time and a weekday number (date('N')) of at most 5 |
| `Dashboard.KeptAppend` | dashboard.php:395-437 | one more kept row extends the summed completion, the status histogram, the client counts, the client figures and the day keys by that row |
| `Dashboard.CountClientRow` | dashboard.php:409-422 | the per-client step gives the client's figures one more row, creating them at zero on the client's first row; with both arrays holding the same clients, the task count goes up by one |
| `Dashboard.ManagerView` | dashboard.php:387-437 | the total counts every fetched row. The summed completion, status histogram, client figures, client counts and workday histogram each fold over the rows whose project has metadata |
| `Dashboard.ManagerTotals` | dashboard.php:403-422 | the status histogram and the client counts each sum to the number of kept rows; each client's count equals its task figure; the task figures also sum to the kept rows; every fetched row whose project has metadata gives its client a bar of at least 1 |
| `Dashboard.AllSelectedKept` | dashboard.php:188-203 | when every project id the query filters on has metadata, as the page builds both from one list, the loop keeps every selected row |
| `Dashboard.ManagerRowsAllKept` | dashboard.php:370-398 | the rows get_records_sql returns for the manager query are all kept, so the total equals the number of rows every other figure folds over |
| `Dashboard.CountClosed` | dashboard.php:475-477 | the number of closed rows is at most the row count, and 0 exactly when no row is closed |
| `Dashboard.ClosedNames` | dashboard.php:474-478 | one name per closed row; a name appears exactly when some closed row's worker bears it |
| `Dashboard.ClosedByWorkerWeek` | dashboard.php:473-483 | the loop builds the counter of closed rows per worker name |
| `Dashboard.WeekCounts` | dashboard.php:473-483 | each worker's count is the number of their closed rows; the names are those of closed rows, none twice; the counts sum to the closed rows |
| `Dashboard.FetchShape` | dashboard.php:471 | `Fetch`, the model of get_records_sql, returns at most one row per first-column value, each under its own key and taken from the selection, and every selected row's key is present |
| `Dashboard.WeekRowsOnePerAssignee` | dashboard.php:447-471 | as written, the fetched week rows hold at most one row per assignee |
| `Dashboard.WeekFetchLosesRow` | dashboard.php:447-483 | as written, two closed tasks of one worker show as one |
| `Dashboard.WeekCountsEveryClosedTask` | dashboard.php:446-483 | keyed by task id, the week rows are exactly the selection, and the per-worker counts sum to its closed rows |

## Left out

- Rendering: the page setup, tables, links, the pie and bar charts, `bar_graph_over` and the `round()` in the progress text. `format_string` and `s()` are parameters (`format`, `escape`).
- Access control: the login and capability checks are host-framework calls.
- The database: the queries become filters over an in-memory task table, and `get_records_sql` becomes `Fetch`, keyed by the first selected column. `ORDER BY` is not modelled, so rows come in table order. The transaction is modelled by its one observable effect here: every refusal happens before the first insert.
- The AI provider and `json_decode` are inputs: whether the action class exists, the provider's response to the prompt, and the decoded value. The decoder's failure case is `JNull`, and JSON floats are not modelled.
- `get_string` is the parameter `localise`, applied to the schema.
- The `task_created` event is fire-and-forget logging.
- `techproject_tree_updateordering` runs after a child is attached; locallib.php is not part of this model, and the model treats the call as rewriting nothing. `techproject_tree_get_max_ordering` (also in locallib.php) is modelled as the maximum ordering in the bucket over the modelled table, 0 for an empty bucket.
- Custom data arrives already cast to integers, as `(int)` leaves it.
- GenerateTasks.MaterialiseGenerated: "only appends" and the ranking of each new row after its earlier siblings hold for the model, in which `techproject_tree_updateordering` changes no row. If that function renumbers the father's children, it rewrites their `ordering` column, so "only appends" would not hold for that column. Whether the ranking survives depends on the renumbering keeping the children's relative order, which cannot be checked without locallib.php. The children of a root created in the same run are created in order, each with an ordering above every earlier sibling, so a renumbering that keeps that order keeps the ranking.
- The clock: the source calls `time()` twice per created task and once per row of the self-view loop. The model freezes it at one instant `now` for the whole generation run and for the whole page, so created == modified for every row of a run and every row of the page is judged against the same `now`.
- Dates: `strtotime('monday this week')`, `date('N')`, `date('Y-m-d')` and `time()` are inputs (`weekstart`, `weekday`, `daykey`, `now`). `userdate` for the workday labels, `$workdaylabels` and the `ksort` before charting are rendering.
- The query that fills the workers dropdown and the per-project metadata (client name) are inputs (`meta`).
- `index.php` and the language pack hold no core logic.
- Dashboard.Lower: lower-cases ASCII letters only, whereas core_text::strtolower also folds non-ASCII letters.
- Dashboard.AverageDone: is the exact quotient, without the rounding to one decimal, because floating point is not modelled.
- Dashboard.ClampPercent: clamps a real value and leaves out the `(float)` cast of non-numeric input.
- Completion (`done`) is an integer column in the model; the `(float)` cast in the closed rule therefore changes nothing.

## Findings

| source | as written | input that shows it | evidently intended | confidence | as-written member | corrected member |
|---|---|---|---|---|---|---|
| dashboard.php:447-471 | The week query selects `t.assignee` as its first column. `get_records_sql` keys its result by that column, so all of one worker's rows collapse into one: the last, at the first one's place. The per-worker chart then counts at most one closed task per worker, and none when that last row is open | two rows of assignee 7, ids 1 and 2, both with done = 100, as the week query hands them to the fetch: the chart shows 1 instead of 2 | every closed task of the week is counted under its worker's name (the other two queries key by `t.id`) | not executed; high | `Dashboard.WeekFetchLosesRow` | `Dashboard.WeekCountsEveryClosedTask` |
