# Seed library: a verified model of the domain layer

This project models the core of a small single-user seed-library tracker written in Python. The tracker
catalogues seed lots, tracks the Pack, Catalog and Reorder follow-up tasks of each seed, keeps one
inventory record per seed with an append-only log of adjustments, and imports seeds from a spreadsheet.

The model covers the following parts of the tracker:

- `models.dfy` (module `Models`): the four records. It also has the task vocabularies and the
  default-filling constructors. `TaskStatus.normalize` is a pure function: the legacy alias
  "pending" becomes "To Do", and "" and None become "To Do" too.
- `database.dfy` (module `Database`): the store. Each of the four tables is a map from id to record,
  held in a `Store` class. The create, update and delete operations are methods with `modifies`
  clauses. Each query is a function of the maps. Updates take typed patches, with one optional
  field per column. The store's invariant `Valid()` requires that every child row points to an
  existing seed, because SQLite's foreign keys are switched on. It also requires at most one
  inventory record per seed.
- `task_service.dfy` (modules `TaskService`, `TaskMetrics`): task generation and the dashboard
  counts. Task generation applies three rules and stores the tasks it creates. The dashboard
  counts are the loop of `calculate_task_metrics`.
- `import_service.dfy` (modules `ImportMapping`, `ImportService`): validation of the column
  mapping, which collects every error before any row is read. Then the row loop, which imports a
  seed and its inventory record for each good row and records one message for each bad row.
- `routes.dfy` (module `Routes`): the rules inside the request handlers of `app/main.py`. These
  are the category counts, the task-list filters, the status and bulk patches, the inventory
  update with its adjustment log, the seed form update, label selection and the inventory filter.
- `schemas.dfy` (module `Schemas`): the two form schemas, `SeedUpdate` and `InventoryUpdate`.
- Helper modules:
  - `wrappers.dfy`: Option and Result.
  - `text.dfy`: ASCII `strip`/`lower`, `str` order and integer rendering.
  - `sorting.dfy`: ordering by a text key, and filtering.

Dates are day numbers. The clock is passed in: `now` is the ISO timestamp string and `today` is a
day number. The calendar conversions the code takes from `datetime` are function parameters:
`iso` renders a day, and `parse` reads a date string and returns None where the code catches a
`ValueError`. The same goes for `int()` on a spreadsheet string (`parseInt`) and pydantic's date
parsing (`parseDate`).

The model follows the code where it departs from the documented design of the system:

- Task generation treats only tasks whose status is exactly "Done" as no longer existing. A
  "Cancelled" task still blocks a new task of its type.
- A generated Reorder task has priority Medium, not High. `create_task` passes no priority to
  the constructor at all, so every stored task gets the default "Medium".
- The dashboard's overdue and due-today counts exclude only "Done" tasks, so "Cancelled" tasks
  are counted.
- Nothing in the store enforces a unique task per seed and task type. That constraint exists only
  in a schema migration.
- `get_all_tasks` does not normalise the status. Its rows carry no `priority` key.
- As a result, the task list's Low and High priority filters always return an empty list
  (`Routes.PriorityFilterOnListed`).

## Model

| member | source | states |
|---|---|---|
| `Models.Normalize` | app/models.py:24-37 | None and "" become "To Do"; any other value becomes a canonical status or the value stripped |
| `Models.NormalizeEmptyAndAlias` | app/models.py:17-27 | PENDING and TODO are the same value "To Do"; None and "" normalise to "To Do" |
| `Models.NormalizePending` | app/models.py:28-31 | "pending" in any letter case, with any surrounding white space, normalises to "To Do" |
| `Models.NormalizeCanonical` | app/models.py:28-36 | a value whose stripped, lower-cased form matches a canonical status maps to that status's canonical spelling |
| `Models.NormalizeFixesCanonical` | app/models.py:30-37 | each of the four canonical statuses is its own normal form |
| `Models.NormalizeUnrecognised` | app/models.py:28-37 | a value that is not an alias comes back stripped, with its letter case unchanged |
| `Models.NormalizeIdempotent` | app/models.py:24-37 | normalising twice equals normalising once, for every value that does not strip to "" |
| `Models.NormalizeWhitespaceOnly` | app/models.py:26-37 | the edge case: white space alone normalises to "", and "" then normalises to "To Do" |
| `Models.NewSeedKeepsColumns` | app/models.py:82-108 | a new seed keeps every given column; a falsy `created_at`/`updated_at` becomes now, a supplied one is kept |
| `Models.NewTaskDefaults` | app/models.py:127-149 | a new task keeps its seed, type, description and dates; its status is the normalised one; a falsy priority becomes Medium, any other is kept; the timestamps default to now |
| `Models.NewInventoryDefaults` | app/models.py:165-181 | a new inventory record keeps every given column and defaults `last_updated` to now; the record built from its defaults has no amount, no notes and both flags off |
| `Models.NewAdjustmentKeepsColumns` | app/models.py:196-209 | a new adjustment keeps every given column and defaults `adjusted_at` to now |
| `Models.NewTaskStatusIsStable` | app/models.py:143 | a task built from a status that does not strip to "" stores a status that normalise leaves unchanged |
| `Database.PatchLaws` | app/database.py:186-188 | a patched column takes the patch's value and an unpatched one keeps its value (seed name, type, packets, finish date and creation time; task status and completion time; inventory amount); the row's own columns never change; the modified timestamp is always now, even when the patch supplied one; applying the same seed or task patch again changes nothing |
| `Database.StoredSeedKeepsFields` | app/database.py:139-159 | `create_seed` keeps every column and fills only empty timestamps with now |
| `Database.StoredTask` | app/database.py:205-217 | `create_task` stores the normalised status and the given fields, and always the priority Medium |
| `Database.CreateThenGetSeed` | app/database.py:139-173 | reading a seed back by the id `create_seed` returned gives the stored form of the given seed |
| `Database.GetOrCreateTwice` | app/database.py:278-302 | two get-or-create calls in a row return the same record; a record exists exactly when the seed exists; the inventory is unchanged when a record or no seed existed, and otherwise gains exactly one default record, from the first call; seeds, tasks and adjustments are untouched |
| `Database.Store.SeedById` | app/database.py:169-173 | `get_seed_by_id` returns the row under the id exactly when the id exists |
| `Database.Store.AllSeeds` | app/database.py:162-166 | exactly the stored seeds appear, each once (no id twice), ordered by `created_at`, newest first |
| `Database.Store.CreateSeed` | app/database.py:139-159 | the seed is stored under a fresh id; no other table changes |
| `Database.Store.UpdateSeed` | app/database.py:176-191 | fails exactly on an empty patch or a missing id, and then changes nothing; otherwise only that seed is patched and stamped |
| `Database.Store.DeleteSeed` | app/database.py:194-202 | fails exactly on a missing id; removes the seed and all its tasks, its inventory and its adjustments, and nothing else |
| `Database.Store.NoRowsOfMissingSeed` | app/models.py:62-80 | in a valid store, a seed that does not exist has no tasks, no inventory record and no adjustments |
| `Database.Store.CreateTask` | app/database.py:205-222 | the stored form of the task goes under a fresh id when its seed exists (the foreign key); otherwise nothing changes |
| `Database.Store.UpdateTask` | app/database.py:249-264 | fails exactly on an empty patch or a missing id, and then changes nothing; otherwise only that task is patched and stamped |
| `Database.Store.DeleteTask` | app/database.py:267-275 | fails exactly on a missing id; otherwise removes that one task |
| `Database.Store.AllTasks` | app/database.py:225-234 | exactly the stored tasks appear, each once (no id twice, as many rows as tasks), each joined with its seed, newest `created_at` first, with the status as stored (not normalised) |
| `Database.Store.TasksBySeed` | app/database.py:237-246 | exactly the tasks with that `seed_id`, each once, newest `created_at` first |
| `Database.Store.FindInventory` | app/database.py:281-286 | the id of the seed's one inventory record, or None when the seed has none |
| `Database.Store.CurrentInventory` | app/database.py:281-289 | the seed's inventory record joined with its seed, when one exists |
| `Database.Store.GetOrCreateInventory` | app/database.py:278-302 | returns an existing record unchanged; otherwise inserts exactly one default record, which needs the seed to exist; at most one record per seed is kept |
| `Database.Store.UpdateInventory` | app/database.py:305-320 | keyed by seed; fails exactly on an empty patch or a seed with no record; otherwise patches that record and stamps `last_updated` |
| `Database.Store.AllInventory` | app/database.py:323-332 | every inventory record, each once, joined with its seed, ordered by seed name |
| `Database.Store.CreateAdjustment` | app/database.py:335-349 | the adjustment goes under a fresh id when its seed exists, with `adjusted_at` defaulted to now |
| `Database.Store.Adjustments` | app/database.py:352-365 | filters by seed only when the seed id is truthy (not None and not 0); every matching adjustment appears once, newest `adjusted_at` first |
| `TaskService.PlanRules` | app/services/task_service.py:18-55 | Pack exactly when there is no finish date; Catalog exactly when the seed is finished but not catalogued; Reorder exactly when it ran out; each only if no task of that type with a status other than "Done" exists |
| `TaskService.PlanShape` | app/services/task_service.py:23-59 | at most two tasks, never both Pack and Catalog, Reorder last; all "To Do" and Medium, due today + 7, + 3 or + 5 by type |
| `TaskService.PlannedTaskStoredAsIs` | app/database.py:205-217 | `create_task` stores a generated task exactly as it was built |
| `TaskService.PlanSaturates` | app/services/task_service.py:18-27 | once the planned tasks exist, planning again for the same seed yields nothing |
| `TaskService.ActiveTypesOfRows` | app/services/task_service.py:17-18 | the blocking types read from `get_tasks_by_seed` are those of the seed's stored tasks that are not "Done" |
| `TaskService.CreateFollowUps` | app/services/task_service.py:23-57 | the tasks created are exactly the planned ones, in plan order, under distinct fresh ids |
| `TaskService.AutoGenerateTasksForSeed` | app/services/task_service.py:10-59 | a missing seed gives [] and no change; otherwise the returned ids are exactly the new tasks, and nothing is left to generate |
| `TaskService.GenerateTwice` | app/services/task_service.py:10-59 | a second call with nothing changed in between creates no task |
| `TaskMetrics.CountStatus` | app/services/task_service.py:70-72 | a count of exact status matches is at most the number of tasks |
| `TaskMetrics.StatusCountsBounded` | app/services/task_service.py:69-72 | done + in progress + pending is at most the total |
| `TaskMetrics.DateCountsBounded` | app/services/task_service.py:77-86 | overdue + due today is at most the total minus done; "Cancelled" tasks are counted |
| `TaskMetrics.UndatedNotCounted` | app/services/task_service.py:78-86 | a task that is "Done", has no due date, or has a due date that does not parse is neither overdue nor due today |
| `TaskMetrics.MetricsOf` | app/services/task_service.py:69-86 | the loop's counts equal the independent counting functions and satisfy both bounds |
| `TaskMetrics.CalculateTaskMetrics` | app/services/task_service.py:62-98 | the counts computed over `get_all_tasks`; the total is the number of stored tasks |
| `ImportMapping.ProvidedColumns` | app/services/import_service.py:44 | the non-empty mapped source columns |
| `ImportMapping.Duplicates` | app/services/import_service.py:45 | the columns occurring more than once, each listed once |
| `ImportMapping.MissingErrors` | app/services/import_service.py:39-41 | one error per listed field whose mapping is falsy, and no other |
| `ImportMapping.NotFoundErrors` | app/services/import_service.py:50-54 | one error per non-empty mapped column missing from the header, and no other |
| `ImportMapping.ValidateMapping` | app/services/import_service.py:34-54 | the appended error list equals the specification of all mapping errors |
| `ImportMapping.CheckRequiredFields` | app/services/import_service.py:39-41 | the required-field loop appends exactly the missing-field errors |
| `ImportMapping.CheckDuplicates` | app/services/import_service.py:43-48 | the duplicate loop appends exactly one error per duplicated column |
| `ImportMapping.CheckColumnsExist` | app/services/import_service.py:50-54 | the header check appends exactly the column-not-found errors |
| `ImportMapping.NoMappingsIff` | app/services/import_service.py:36-37 | "No column mappings were provided." is reported exactly for an empty mapping |
| `ImportMapping.MissingRequiredIff` | app/services/import_service.py:39-41 | a required field is reported missing exactly when its mapping is absent, None or "" |
| `ImportMapping.OccurrencesOfProvided` | app/services/import_service.py:44-45 | a column occurs twice among the provided columns exactly when two fields map to it |
| `ImportMapping.DuplicateColumnIff` | app/services/import_service.py:43-48 | a column is reported as mapped to multiple fields exactly when two fields map to it, and only once |
| `ImportMapping.ColumnNotFoundIff` | app/services/import_service.py:50-54 | "Column 'c' was not found for 't'" is reported exactly when t maps to a non-empty c that is not in the stripped header |
| `ImportMapping.NoErrorsIffAcceptable` | app/services/import_service.py:34-56 | validation finds no error exactly when the mapping is acceptable by an independent definition |
| `ImportService.StripHeader` | app/services/import_service.py:29 | every header name is stripped |
| `ImportService.RowFailsIff` | app/services/import_service.py:77-95 | a row fails exactly on a non-empty text packet count that `int()` rejects, with that message |
| `ImportService.RowDefaults` | app/services/import_service.py:71-87 | an unmapped or NA packet count is 0; an unmapped or NA source or amount is ""; an unmapped or NA date is None |
| `ImportService.RowTextCells` | app/services/import_service.py:77-87 | text cells come through unchanged; an unmapped Type or Name is "", and an NA one becomes "nan" |
| `ImportService.EveryRowAccounted` | app/services/import_service.py:69-96 | imported + row errors = total rows |
| `ImportService.CleanSheetImportsAll` | app/services/import_service.py:69-96 | when no row fails, every row is imported in order and no error is reported |
| `ImportService.RowSeedStoredAsIs` | app/database.py:139-159 | `create_seed` stores a row's seed exactly as it was built |
| `ImportService.CreateSeedWithInventory` | app/services/import_service.py:89-91 | an imported row adds one seed and that seed's one default inventory record |
| `ImportService.ImportRows` | app/services/import_service.py:66-96 | the row loop imports exactly the rows that build, each with its inventory record, and reports each failing row as "Row {index+2}: ..." |
| `ImportService.ImportSeedsFromExcel` | app/services/import_service.py:25-114 | a read failure or any mapping error changes nothing, and mapping errors are returned together with the row count; otherwise the result is a success and imported + errors = total rows |
| `Routes.SeedCategoryCounts` | app/main.py:41-50 | the counting loop computes the category map |
| `Routes.CountsAreOccurrences` | app/main.py:44-48 | the keys are exactly the categories that occur (an empty type counts as "Uncategorized"), each with its number of seeds |
| `Routes.CountsSumToTotal` | app/main.py:41-50 | the counts add up to the number of seeds |
| `Routes.NormalizeTasks` | app/main.py:174-178 | every task's status is normalised and its priority set to Medium, because the row has none |
| `Routes.OverdueOnly` | app/main.py:190-193 | keeps the open tasks with a due date before today; a date that does not parse fails the request |
| `Routes.OverdueOnlyKeeps` | app/main.py:190-193 | when every date parses, the overdue view is exactly the passing tasks in their listed order, each as often as it occurs |
| `Routes.StatusViewKeeps` | app/main.py:182-189 | a status filter keeps exactly the tasks whose normalised status equals it |
| `Routes.OverdueViewKeeps` | app/main.py:190-193 | the overdue filter excludes both "Done" and "Cancelled" |
| `Routes.OtherFiltersKeepAll` | app/main.py:182-196 | an unknown filter or priority keeps every task |
| `Routes.PriorityFilterOnListed` | app/main.py:195-196 | a listed task always has priority Medium, so the Medium filter keeps everything and Low or High keeps nothing |
| `Routes.TasksList` | app/main.py:169-203 | the task list is all tasks, normalised, then filtered |
| `Routes.StatusPatchTransition` | app/main.py:212-217 | Done sets `completed_at` to now; To Do, In Progress and Cancelled clear it; any other value leaves it unpatched |
| `Routes.StatusUpdateEffect` | app/main.py:212-218 | the effect of a status update on the stored task |
| `Routes.UpdateTaskStatus` | app/main.py:206-219 | succeeds exactly for an existing task, which receives the status patch |
| `Routes.BulkPatchContents` | app/main.py:253-264 | status with `completed_at` (now if Done, else cleared) only when a status is given; priority and due date only when non-empty |
| `Routes.BulkUpdateTasks` | app/main.py:229-272 | no ids is an error with no change; an empty patch makes no update call; otherwise the same patch is applied to every listed id |
| `Routes.UpdateInventoryPost` | app/main.py:461-490 | fails exactly when the seed is missing, and then changes nothing; otherwise the seed's record takes the four form values, stamped now, and no other record changes; exactly one "Manual Update" adjustment, "From 'old' to 'new'", is logged exactly when the amount changed |
| `Routes.DateField` | app/main.py:119-122 | an empty date string becomes None |
| `Routes.SeedFormPatch` | app/main.py:114-124 | the seed form's patch is never empty and supplies no timestamp |
| `Routes.EditedSeed` | app/main.py:114-125 | the saved seed has every form value, empty dates stored as None, and keeps its creation time |
| `Routes.UpdateSeedPost` | app/main.py:101-128 | an existing seed takes the form values; task generation then adds exactly the tasks planned for the edited seed against the tasks it already had, under fresh ids, and leaves nothing more to generate; a missing seed changes nothing |
| `Routes.SelectedSeeds` | app/main.py:149-153 | no more rows than ids; every row is an existing seed whose id was given, and every given id that exists is included |
| `Routes.AllIdsSelected` | app/main.py:149-153 | when every id exists, the selection is exactly those seeds in order |
| `Routes.SelectedSeedsAppend` | app/main.py:149-153 | the selection follows the order of the given ids: selecting from `a + b` is selecting from `a`, then from `b` |
| `Routes.SelectedSeedsOne` | app/main.py:149-153 | one id selects its seed when it exists and nothing when it does not |
| `Sorting.KeepAppend` | app/main.py:182-196 | filtering a list filters each part in place: keeping from `a + b` is keeping from `a`, then from `b` |
| `Sorting.KeepOne` | app/main.py:182-196 | a single row is kept exactly when it passes the condition |
| `Routes.PrintLabels` | app/main.py:138-166 | an error when the input or the selection is empty; otherwise the selection |
| `Routes.FilterInventory` | app/main.py:449-452 | buy_more and extra keep exactly the flagged records; any other filter keeps all |
| `Routes.InventoryList` | app/main.py:444-458 | the inventory list, sorted by seed name, then filtered |
| `Schemas.RequiredTextErrors` | app/schemas.py:10-11 | a required text field fails exactly when it is absent or empty |
| `Schemas.PacketsErrors` | app/schemas.py:12 | `packets_made` fails exactly when it is given and negative |
| `Schemas.StripOptional` | app/schemas.py:20-23 | a string is stripped, None stays None, and an absent field is "" |
| `Schemas.EmptyToNone` | app/schemas.py:25-36 | an empty string or None becomes None; anything else passes through |
| `Schemas.DateValueIff` | app/schemas.py:14-36 | a date field validates exactly when it is absent, empty or parseable; absent and empty both mean None |
| `Schemas.SeedUpdateAcceptedIff` | app/schemas.py:7-36 | the form validates exactly when name and type are non-empty, packets are not negative, and every date is acceptable |
| `Schemas.NameAndTypeErrors` | app/schemas.py:10-11 | the name and type entries of the error list report exactly a missing or empty name or type |
| `Schemas.PacketsAndDateErrors` | app/schemas.py:12-17 | the packet and date entries of the error list report exactly the failing fields |
| `Schemas.SeedUpdateErrorsExplain` | app/schemas.py:7-36 | a rejected form lists at least one error, and lists a field exactly when that field fails |
| `Schemas.SeedUpdateValues` | app/schemas.py:10-36 | a validated form: name and type as given; packets as given, 0 when absent; each free-text field is the stripped input, "" when absent, None when None; an empty date is None and any other date is its parsed value |
| `Schemas.SeedTextRevalidation` | app/schemas.py:20-23 | validating the values of an already validated form again (without its dates) gives back the same name, type, packets, source and amount |
| `Schemas.ValidateInventoryUpdate` | app/schemas.py:39-50 | never fails; each text field is the stripped input, an explicit None stays None, absent text is ""; a flag is true exactly when given as true |
| `Schemas.InventoryUpdateStrips` | app/schemas.py:42-50 | a padded amount keeps only its trimmed core; validating again changes nothing |
| `Schemas.InventoryRevalidation` | app/schemas.py:42-50 | validating the values of an already validated inventory form yields that same form |

## Left out

- The SQLAlchemy engine, session and transaction plumbing (app/database.py:19-71) and `init_database`
  are left out. Each store method is one atomic step, and a failing call changes nothing.
- Row ids come from counters and are never reused. SQLite may reuse the largest deleted rowid.
- Update dictionaries are typed patch records. An unknown key, or an `id` or `seed_id` key, which
  `setattr` would also write, is not modelled.
- The migration's unique (seed_id, task_type) constraint is not modelled, because the ORM model
  and `create_task` do not enforce it.
- `completion_percentage` is left out because it is float rounding. Only `done <= total` is stated.
- `str.strip`/`str.lower` are modelled on ASCII only. There is no Unicode white space or case
  mapping.
- `datetime.now`, `date.isoformat`, `datetime.fromisoformat`, `int()` on strings and pydantic's
  date parsing are function parameters.
- Spreadsheet cells are empty, text or integers. Float cells, and `int()` truncating them, are not
  modelled. pandas renaming duplicate header names is not modelled either: the first column with a
  name is used. Nor are names that become equal only once the header is stripped (app/services/import_service.py:29),
  such as "Name" and "Name ". pandas keeps both labels, `row.get` returns two cells, and
  `get_cell(...) or ''` raises, so every row would be reported as a "Row n: ..." error
  (app/services/import_service.py:71-95). The model reads the first such column instead.
- Store failures other than a missing foreign-key target (disk full, a corrupt file) are not
  modelled. A spreadsheet row therefore fails only when its packet count does not parse.
- The set of duplicated columns is iterated in Python set order, which is unspecified. The model
  lists each duplicated column at its last occurrence (`["A", "B", "B", "A"]` gives `["B", "A"]`),
  and its contracts do not depend on the order.
- Rows whose sort keys are equal come out in an order that SQL leaves open. The contracts state
  the ordering by key, which rows appear and that none appears twice.
- TaskPatch: has no `task_type` or `created_at` key. `update_task` would `setattr` them, but no
  caller in app/main.py sends either, so a task's type and creation time never change in the model.
- ImportMapping.Get: a mapping is a list of (field, column) entries standing for a dict, whose keys
  are distinct. On a list that repeats a field, `Get` takes the first entry, where a dict literal
  would keep the last.
- ImportService.IntOf: the error text quotes the cell with single quotes. Python's `repr` switches to double
  quotes, or escapes, for a string that itself holds a quote; that case is not modelled.
- FastAPI routing, templates, redirects and HTTP status codes are left out. So are the file upload
  and import pages (app/main.py:275-441), the health check, and the handlers that only forward to a
  modelled store call and render the result (`dashboard`, `seeds_list`, `seed_detail`,
  `delete_seed_post`, `delete_task_post`).
- app/config.py, app/logging_config.py and the migration in alembic/versions are not part of this
  model.
