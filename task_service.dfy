/**
 * app/services/task_service.py: generating the Pack, Catalog and Reorder
 * follow-up tasks of a seed, and the dashboard's task counts. Dates are day
 * numbers; `today` and `now` are parameters, and so are the two calendar
 * conversions the source takes from `datetime` (`iso` renders a day as
 * `date.isoformat()` does, `parse` stands for `datetime.fromisoformat(s).date()`,
 * None when that raises).
 */
module TaskService {
  import opened Wrappers
  import opened Text
  import opened Models
  import opened Database

  /** The task types that block generation: those of the seed's tasks whose status is not exactly "Done". */
  function ActiveTypes(rows: seq<TaskRow>): set<string> {
    set r | r in rows && r.status != Done :: r.taskType
  }

  /** The types of a list of tasks. */
  function TypesOf(ts: seq<Task>): set<string> {
    set t | t in ts :: t.taskType
  }

  /** The record a generated task starts as: "To Do", priority Medium, due on `due`, both timestamps now. */
  function Planned(seedId: int, taskType: string, due: string, description: string, now: string): Task {
    Task(seedId, taskType, ToDo, Medium, Some(due), None, description, now, now)
  }

  /**
   * The generator builds its tasks with `Task(...)` and status "pending", no
   * priority and no timestamps; the constructor normalises that to the record above.
   */
  lemma PlannedIsNewTask(seedId: int, taskType: string, due: string, description: string, now: string)
    ensures Planned(seedId, taskType, due, description, now)
         == NewTask(seedId, taskType, Some(Pending), None, Some(due), None, description, None, None, now)
  {
    NormalizeFixesCanonical(ToDo);
  }

  function PackTask(seedId: int, seed: Seed, today: int, now: string, iso: int -> string): Task {
    Planned(seedId, Pack, iso(today + 7), "Pack " + seed.name + " into packets", now)
  }

  function CatalogTask(seedId: int, seed: Seed, today: int, now: string, iso: int -> string): Task {
    Planned(seedId, Catalog, iso(today + 3), "Catalog " + seed.name + " in the system", now)
  }

  function ReorderTask(seedId: int, seed: Seed, today: int, now: string, iso: int -> string): Task {
    Planned(seedId, Reorder, iso(today + 5), "Reorder " + seed.name + " from " + seed.seedSource, now)
  }

  predicate WantsPack(seed: Seed, active: set<string>) {
    Pack !in active && Falsy(seed.dateFinished)
  }

  predicate WantsCatalog(seed: Seed, active: set<string>) {
    Catalog !in active && !Falsy(seed.dateFinished) && Falsy(seed.dateCataloged)
  }

  predicate WantsReorder(seed: Seed, active: set<string>) {
    Reorder !in active && !Falsy(seed.dateRanOut)
  }

  /** The tasks one generation pass creates, in the order it creates them. */
  function Plan(seedId: int, seed: Seed, active: set<string>, today: int, now: string, iso: int -> string): seq<Task> {
    (if WantsPack(seed, active) then [PackTask(seedId, seed, today, now, iso)] else [])
    + (if WantsCatalog(seed, active) then [CatalogTask(seedId, seed, today, now, iso)] else [])
    + (if WantsReorder(seed, active) then [ReorderTask(seedId, seed, today, now, iso)] else [])
  }

  /** How many days after today each generated type falls due. */
  function DueIn(taskType: string): int {
    if taskType == Pack then 7 else if taskType == Catalog then 3 else 5
  }

  /**
   * The shape of every generated task: it belongs to the seed, is "To Do" with
   * priority Medium, is not completed, was created now, and falls due
   * `DueIn` days after today.
   */
  predicate Generated(t: Task, seedId: int, today: int, now: string, iso: int -> string) {
    && t.seedId == seedId && t.status == ToDo && t.priority == Medium
    && t.completedAt == None && t.createdAt == now && t.updatedAt == now
    && t.dueDate == Some(iso(today + DueIn(t.taskType)))
  }

  lemma GeneratedTasks(seedId: int, seed: Seed, today: int, now: string, iso: int -> string)
    ensures PackTask(seedId, seed, today, now, iso).taskType == Pack
    ensures CatalogTask(seedId, seed, today, now, iso).taskType == Catalog
    ensures ReorderTask(seedId, seed, today, now, iso).taskType == Reorder
    ensures Generated(PackTask(seedId, seed, today, now, iso), seedId, today, now, iso)
    ensures Generated(CatalogTask(seedId, seed, today, now, iso), seedId, today, now, iso)
    ensures Generated(ReorderTask(seedId, seed, today, now, iso), seedId, today, now, iso)
  {
  }

  /**
   * Each rule fires exactly when its condition holds: Pack when the seed has no
   * finish date, Catalog when it is finished but not catalogued, Reorder when
   * it ran out, and in each case only if no task of that type other than a
   * "Done" one exists.
   */
  lemma PlanRules(seedId: int, seed: Seed, active: set<string>, today: int, now: string, iso: int -> string)
    ensures var plan := Plan(seedId, seed, active, today, now, iso);
      (Pack in TypesOf(plan) <==> WantsPack(seed, active))
      && (Catalog in TypesOf(plan) <==> WantsCatalog(seed, active))
      && (Reorder in TypesOf(plan) <==> WantsReorder(seed, active))
  {
    var plan := Plan(seedId, seed, active, today, now, iso);
    if WantsPack(seed, active) {
      assert PackTask(seedId, seed, today, now, iso) in plan;
    }
    if WantsCatalog(seed, active) {
      assert CatalogTask(seedId, seed, today, now, iso) in plan;
    }
    if WantsReorder(seed, active) {
      assert ReorderTask(seedId, seed, today, now, iso) in plan;
    }
  }

  /**
   * Every generated task belongs to the seed, is "To Do", has the default
   * priority Medium (the Reorder task too) and falls due 7, 3 or 5 days from
   * today by type; Pack and Catalog never come together, so at most two tasks
   * are made, and a Reorder task comes last.
   */
  lemma PlanShape(seedId: int, seed: Seed, active: set<string>, today: int, now: string, iso: int -> string)
    ensures var plan := Plan(seedId, seed, active, today, now, iso);
      |plan| <= 2
      && !(Pack in TypesOf(plan) && Catalog in TypesOf(plan))
      && (forall i :: 0 <= i < |plan| ==> Generated(plan[i], seedId, today, now, iso))
      && (forall i :: 0 <= i < |plan| - 1 ==> plan[i].taskType != Reorder)
  {
    PlanRules(seedId, seed, active, today, now, iso);
    PlanParts(seedId, seed, active, today, now, iso);
    PlanGenerated(seedId, seed, active, today, now, iso);
    ReorderLast(seedId, seed, active, today, now, iso);
  }

  /** The plan is the Pack-or-Catalog part followed by the Reorder part, each of at most one task. */
  lemma PlanParts(seedId: int, seed: Seed, active: set<string>, today: int, now: string, iso: int -> string)
    ensures var plan := Plan(seedId, seed, active, today, now, iso);
      var front := if WantsPack(seed, active) then [PackTask(seedId, seed, today, now, iso)]
                   else if WantsCatalog(seed, active) then [CatalogTask(seedId, seed, today, now, iso)] else [];
      plan == front + (if WantsReorder(seed, active) then [ReorderTask(seedId, seed, today, now, iso)] else [])
  {
  }

  lemma PlanGenerated(seedId: int, seed: Seed, active: set<string>, today: int, now: string, iso: int -> string)
    ensures var plan := Plan(seedId, seed, active, today, now, iso);
      forall i :: 0 <= i < |plan| ==> Generated(plan[i], seedId, today, now, iso)
  {
    var plan := Plan(seedId, seed, active, today, now, iso);
    GeneratedTasks(seedId, seed, today, now, iso);
    PlanParts(seedId, seed, active, today, now, iso);
    forall i | 0 <= i < |plan|
      ensures Generated(plan[i], seedId, today, now, iso)
    {
      assert plan[i] in plan;
    }
  }

  lemma ReorderLast(seedId: int, seed: Seed, active: set<string>, today: int, now: string, iso: int -> string)
    ensures var plan := Plan(seedId, seed, active, today, now, iso);
      forall i :: 0 <= i < |plan| - 1 ==> plan[i].taskType != Reorder
  {
    var plan := Plan(seedId, seed, active, today, now, iso);
    GeneratedTasks(seedId, seed, today, now, iso);
    PlanParts(seedId, seed, active, today, now, iso);
    assert Pack != Reorder && Catalog != Reorder by {
      assert |Pack| == 4 && Catalog[0] == 'C' && Reorder[0] == 'R';
    }
  }

  /** `create_task` stores a planned task unchanged. */
  lemma PlannedTaskStoredAsIs(seedId: int, seed: Seed, active: set<string>, today: int, now: string, iso: int -> string)
    ensures var plan := Plan(seedId, seed, active, today, now, iso);
      forall i :: 0 <= i < |plan| ==> StoredTask(plan[i], now) == plan[i]
  {
    var plan := Plan(seedId, seed, active, today, now, iso);
    PlanGenerated(seedId, seed, active, today, now, iso);
    forall i | 0 <= i < |plan|
      ensures StoredTask(plan[i], now) == plan[i]
    {
      StoredToDoTask(plan[i], now);
    }
  }

  /** A "To Do" task with priority Medium, stamped now, is stored as it is. */
  lemma StoredToDoTask(t: Task, now: string)
    requires t.status == ToDo && t.priority == Medium && t.createdAt == now && t.updatedAt == now
    ensures StoredTask(t, now) == t
  {
    NormalizeFixesCanonical(ToDo);
  }

  /**
   * Once the planned tasks exist (as "To Do", so not excluded), planning again
   * for the same seed, on any day, yields nothing: generation is idempotent.
   */
  lemma PlanSaturates(seedId: int, seed: Seed, active: set<string>, bigger: set<string>,
                      today: int, now: string, iso: int -> string, today': int, now': string)
    requires active + TypesOf(Plan(seedId, seed, active, today, now, iso)) <= bigger
    ensures Plan(seedId, seed, bigger, today', now', iso) == []
  {
    PlanRules(seedId, seed, active, today, now, iso);
  }

  /** The types of the tasks of seed `seedId` in `tasks` whose status is not "Done". */
  ghost function ActiveTypesIn(tasks: map<int, Task>, seedId: int): set<string> {
    set k | k in tasks && tasks[k].seedId == seedId && tasks[k].status != Done :: tasks[k].taskType
  }

  /** The active types of the seed's task rows are those of its stored tasks. */
  lemma ActiveTypesOfRows(rows: seq<TaskRow>, tasks: map<int, Task>, seedId: int)
    requires forall row :: row in rows <==> row.id in tasks && tasks[row.id].seedId == seedId && row == TaskToRow(row.id, tasks[row.id], None)
    ensures ActiveTypes(rows) == ActiveTypesIn(tasks, seedId)
  {
    forall ty | ty in ActiveTypesIn(tasks, seedId)
      ensures ty in ActiveTypes(rows)
    {
      var k :| k in tasks && tasks[k].seedId == seedId && tasks[k].status != Done && tasks[k].taskType == ty;
      assert TaskToRow(k, tasks[k], None) in rows;
    }
  }

  /** Adding the planned "To Do" tasks of a seed makes their types active, and keeps the active ones. */
  lemma ActiveGrows(before: map<int, Task>, tasks: map<int, Task>, ids: seq<int>, plan: seq<Task>, seedId: int)
    requires Extends(before, tasks, ids, plan)
    requires forall i :: 0 <= i < |plan| ==> plan[i].seedId == seedId && plan[i].status == ToDo
    ensures ActiveTypesIn(before, seedId) + TypesOf(plan) <= ActiveTypesIn(tasks, seedId)
  {
    forall ty | ty in TypesOf(plan)
      ensures ty in ActiveTypesIn(tasks, seedId)
    {
      var i :| 0 <= i < |plan| && plan[i].taskType == ty;
      assert tasks[ids[i]] == plan[i];
    }
  }

  /**
   * One rule of the generator: when it fires, `create_task` stores its task and
   * the new id is appended to `task_ids`; otherwise nothing happens.
   */
  method CreateIfWanted(st: Store, wanted: bool, task: Task, now: string, ghost before: map<int, Task>,
                        taskIds: seq<int>, ghost created: seq<Task>)
    returns (taskIds': seq<int>, ghost created': seq<Task>)
    requires st.Valid() && task.seedId in st.seeds
    requires task.status == ToDo && task.priority == Medium && task.createdAt == now && task.updatedAt == now
    requires Extends(before, st.tasks, taskIds, created)
    modifies st
    ensures st.Valid()
    ensures created' == created + (if wanted then [task] else [])
    ensures Extends(before, st.tasks, taskIds', created')
    ensures st.seeds == old(st.seeds) && st.inventory == old(st.inventory) && st.adjustments == old(st.adjustments)
  {
    if wanted {
      ghost var tasks0 := st.tasks;
      StoredToDoTask(task, now);
      var id := st.CreateTask(task, now);
      assert st.tasks == tasks0[id.value := task];
      taskIds' := taskIds + [id.value];
      created' := created + [task];
      ExtendsStep(before, tasks0, taskIds, created, id.value, task);
      assert Extends(before, st.tasks, taskIds', created');
    } else {
      taskIds', created' := taskIds, created;
    }
  }

  /** The three rule checks of the generator, each creating its task when it fires. */
  method CreateFollowUps(st: Store, seedId: int, seed: Seed, existingTaskTypes: set<string>,
                         today: int, now: string, iso: int -> string)
    returns (taskIds: seq<int>)
    requires st.Valid() && seedId in st.seeds
    modifies st
    ensures st.Valid()
    ensures Extends(old(st.tasks), st.tasks, taskIds, Plan(seedId, seed, existingTaskTypes, today, now, iso))
    ensures st.seeds == old(st.seeds) && st.inventory == old(st.inventory) && st.adjustments == old(st.adjustments)
  {
    ghost var before := st.tasks;
    ghost var created: seq<Task> := [];
    taskIds := [];
    var packTask := PackTask(seedId, seed, today, now, iso);
    var catalogTask := CatalogTask(seedId, seed, today, now, iso);
    var reorderTask := ReorderTask(seedId, seed, today, now, iso);
    StoredToDoTask(packTask, now);
    StoredToDoTask(catalogTask, now);
    StoredToDoTask(reorderTask, now);
    ghost var pack := if WantsPack(seed, existingTaskTypes) then [packTask] else [];
    ghost var catalog := if WantsCatalog(seed, existingTaskTypes) then [catalogTask] else [];
    ghost var reorder := if WantsReorder(seed, existingTaskTypes) then [reorderTask] else [];
    taskIds, created := CreateIfWanted(st, Pack !in existingTaskTypes && Falsy(seed.dateFinished),
                                       packTask, now, before, taskIds, created);
    assert created == pack;
    taskIds, created := CreateIfWanted(st, Catalog !in existingTaskTypes && !Falsy(seed.dateFinished) && Falsy(seed.dateCataloged),
                                       catalogTask, now, before, taskIds, created);
    assert created == pack + catalog;
    taskIds, created := CreateIfWanted(st, Reorder !in existingTaskTypes && !Falsy(seed.dateRanOut),
                                       reorderTask, now, before, taskIds, created);
    assert created == pack + catalog + reorder;
  }

  /**
   * `auto_generate_tasks_for_seed`: nothing for a missing seed; otherwise the
   * planned tasks are stored under fresh ids, which are returned in creation
   * order, and afterwards nothing is left to generate for the seed.
   */
  method AutoGenerateTasksForSeed(st: Store, seedId: int, today: int, now: string, iso: int -> string)
    returns (taskIds: seq<int>)
    requires st.Valid()
    modifies st
    ensures st.Valid()
    ensures seedId !in old(st.seeds) ==> taskIds == [] && st.tasks == old(st.tasks)
    ensures seedId in old(st.seeds) ==>
      Extends(old(st.tasks), st.tasks, taskIds,
              Plan(seedId, old(st.seeds)[seedId], ActiveTypes(old(st.TasksBySeed(seedId))), today, now, iso))
    ensures seedId in st.seeds ==> Plan(seedId, st.seeds[seedId], ActiveTypes(st.TasksBySeed(seedId)), today, now, iso) == []
    ensures st.seeds == old(st.seeds) && st.inventory == old(st.inventory) && st.adjustments == old(st.adjustments)
  {
    var found := st.SeedById(seedId);
    if found.None? {
      return [];
    }
    var seed := found.value.seed;
    var existingTasks := st.TasksBySeed(seedId);
    var existingTaskTypes := set t | t in existingTasks && t.status != Done :: t.taskType;
    ghost var before := st.tasks;
    taskIds := CreateFollowUps(st, seedId, seed, existingTaskTypes, today, now, iso);

    ghost var plan := Plan(seedId, seed, existingTaskTypes, today, now, iso);
    PlanShape(seedId, seed, existingTaskTypes, today, now, iso);
    ActiveTypesOfRows(existingTasks, before, seedId);
    ActiveTypesOfRows(st.TasksBySeed(seedId), st.tasks, seedId);
    ActiveGrows(before, st.tasks, taskIds, plan, seedId);
    PlanSaturates(seedId, seed, existingTaskTypes, ActiveTypes(st.TasksBySeed(seedId)), today, now, iso, today, now);
  }

  /** Calling the generator twice in a row creates nothing the second time. */
  method GenerateTwice(st: Store, seedId: int, today: int, now: string, iso: int -> string)
    returns (first: seq<int>, second: seq<int>)
    requires st.Valid()
    modifies st
    ensures second == []
  {
    first := AutoGenerateTasksForSeed(st, seedId, today, now, iso);
    ghost var between := st.tasks;
    second := AutoGenerateTasksForSeed(st, seedId, today, now, iso);
    if seedId in st.seeds {
      assert |second| == 0;
    }
  }
}

/** The dashboard counts of `calculate_task_metrics`. */
module TaskMetrics {
  import opened Wrappers
  import opened Text
  import opened Models
  import opened Database

  datatype Metrics = Metrics(total: nat, done: nat, inProgress: nat, pending: nat, overdue: nat, dueToday: nat)

  /** How many rows have exactly this status. */
  function CountStatus(rows: seq<TaskRow>, status: string): (n: nat)
    ensures n <= |rows|
  {
    if rows == [] then 0
    else CountStatus(rows[..|rows| - 1], status) + (if rows[|rows| - 1].status == status then 1 else 0)
  }

  /**
   * The due day the date loop looks at: only for a task that is not "Done"
   * and has a non-empty due date, and only when that date parses.
   */
  function DueDay(row: TaskRow, parse: string -> Option<int>): Option<int> {
    if row.status != Done && !Falsy(row.dueDate) then parse(row.dueDate.value) else None
  }

  function CountOverdue(rows: seq<TaskRow>, today: int, parse: string -> Option<int>): nat {
    if rows == [] then 0
    else
      var d := DueDay(rows[|rows| - 1], parse);
      CountOverdue(rows[..|rows| - 1], today, parse) + (if d.Some? && d.value < today then 1 else 0)
  }

  function CountDueToday(rows: seq<TaskRow>, today: int, parse: string -> Option<int>): nat {
    if rows == [] then 0
    else
      var d := DueDay(rows[|rows| - 1], parse);
      CountDueToday(rows[..|rows| - 1], today, parse) + (if d.Some? && d.value == today then 1 else 0)
  }

  /** A row is counted by its status at most once, since the three statuses differ. */
  lemma {:induction false} StatusCountsBounded(rows: seq<TaskRow>)
    ensures CountStatus(rows, Done) + CountStatus(rows, InProgress) + CountStatus(rows, Pending) <= |rows|
  {
    if rows != [] {
      StatusCountsBounded(rows[..|rows| - 1]);
    }
  }

  /** Overdue and due-today tasks are never "Done" and never both, so they fit in the tasks not done. */
  lemma {:induction false} DateCountsBounded(rows: seq<TaskRow>, today: int, parse: string -> Option<int>)
    ensures CountOverdue(rows, today, parse) + CountDueToday(rows, today, parse) + CountStatus(rows, Done) <= |rows|
  {
    if rows != [] {
      DateCountsBounded(rows[..|rows| - 1], today, parse);
    }
  }

  /** A task with no due date, or one that does not parse, is neither overdue nor due today. */
  lemma {:induction false} UndatedNotCounted(rows: seq<TaskRow>, row: TaskRow, today: int, parse: string -> Option<int>)
    requires DueDay(row, parse).None?
    ensures CountOverdue(rows + [row], today, parse) == CountOverdue(rows, today, parse)
    ensures CountDueToday(rows + [row], today, parse) == CountDueToday(rows, today, parse)
  {
    assert (rows + [row])[..|rows + [row]| - 1] == rows;
  }

  /**
   * The loop of `calculate_task_metrics` over a list of task rows: totals by
   * status, then overdue and due-today counts among the open, dated tasks.
   */
  method MetricsOf(tasks: seq<TaskRow>, today: int, parse: string -> Option<int>) returns (m: Metrics)
    ensures m.total == |tasks|
    ensures m.done == CountStatus(tasks, Done) && m.inProgress == CountStatus(tasks, InProgress)
    ensures m.pending == CountStatus(tasks, Pending)
    ensures m.overdue == CountOverdue(tasks, today, parse) && m.dueToday == CountDueToday(tasks, today, parse)
    ensures m.done + m.inProgress + m.pending <= m.total
    ensures m.overdue + m.dueToday <= m.total - m.done
  {
    var total := |tasks|;
    var done := CountStatus(tasks, Done);
    var inProgress := CountStatus(tasks, InProgress);
    var pending := CountStatus(tasks, Pending);
    var overdue := 0;
    var dueToday := 0;
    var i := 0;
    while i < |tasks|
      invariant 0 <= i <= |tasks|
      invariant overdue == CountOverdue(tasks[..i], today, parse)
      invariant dueToday == CountDueToday(tasks[..i], today, parse)
    {
      var task := tasks[i];
      assert tasks[..i + 1][..i] == tasks[..i];
      if task.status != Done && !Falsy(task.dueDate) {
        var dueDate := parse(task.dueDate.value);
        if dueDate.Some? {
          if dueDate.value < today {
            overdue := overdue + 1;
          } else if dueDate.value == today {
            dueToday := dueToday + 1;
          }
        }
      }
      i := i + 1;
    }
    assert tasks[..i] == tasks;
    StatusCountsBounded(tasks);
    DateCountsBounded(tasks, today, parse);
    m := Metrics(total, done, inProgress, pending, overdue, dueToday);
  }

  /** `calculate_task_metrics`: the counts over `get_all_tasks`. */
  method CalculateTaskMetrics(st: Store, today: int, parse: string -> Option<int>) returns (m: Metrics)
    requires st.Valid()
    ensures m.total == |st.AllTasks()| == |st.tasks|
    ensures m.done == CountStatus(st.AllTasks(), Done) && m.pending == CountStatus(st.AllTasks(), Pending)
    ensures m.inProgress == CountStatus(st.AllTasks(), InProgress)
    ensures m.overdue == CountOverdue(st.AllTasks(), today, parse) && m.dueToday == CountDueToday(st.AllTasks(), today, parse)
    ensures m.done + m.inProgress + m.pending <= m.total
    ensures m.overdue + m.dueToday <= m.total - m.done
  {
    var tasks := st.AllTasks();
    m := MetricsOf(tasks, today, parse);
  }
}
