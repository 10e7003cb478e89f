/**
 * The rules app/main.py applies inside its request handlers: the dashboard's
 * category counts, the task list's filters, the status and bulk patches of
 * tasks, the inventory update with its adjustment log, the seed form update,
 * label selection and the inventory filter. Requests, templates and redirects
 * are not modelled; every handler takes its form fields as parameters and
 * `now` (the ISO timestamp) and `today` (a day number) are parameters too.
 */
module Routes {
  import opened Wrappers
  import opened Text
  import opened Sorting
  import opened Models
  import opened Database
  import opened TaskService

  // ---------------------------------------------------------------------------
  // get_seed_category_counts

  const Uncategorized := "Uncategorized"

  /** The category a seed is counted under: its type, or "Uncategorized" when that is empty. */
  function Category(row: SeedRow): string {
    if row.seed.seedType == "" then Uncategorized else row.seed.seedType
  }

  /** The count so far under a key, 0 for a key not seen yet (`counts.get(category, 0)`). */
  function CountOf(counts: map<string, nat>, key: string): nat {
    if key in counts then counts[key] else 0
  }

  /** The counts dictionary after the loop over `seeds`. */
  function CountsOf(seeds: seq<SeedRow>): map<string, nat> {
    if seeds == [] then map[]
    else
      var counts := CountsOf(seeds[..|seeds| - 1]);
      var category := Category(seeds[|seeds| - 1]);
      counts[category := CountOf(counts, category) + 1]
  }

  /** How many seeds fall under a category, counted independently of the loop. */
  function SeedsIn(seeds: seq<SeedRow>, category: string): nat {
    if seeds == [] then 0
    else SeedsIn(seeds[..|seeds| - 1], category) + (if Category(seeds[|seeds| - 1]) == category then 1 else 0)
  }

  /** The categories in order of first appearance. */
  function CategoriesOf(seeds: seq<SeedRow>): seq<string> {
    if seeds == [] then []
    else
      var init := seeds[..|seeds| - 1];
      var category := Category(seeds[|seeds| - 1]);
      CategoriesOf(init) + (if category in CountsOf(init) then [] else [category])
  }

  /** The sum of `counts` over `keys`. */
  function SumOver(keys: seq<string>, counts: map<string, nat>): nat {
    if keys == [] then 0 else CountOf(counts, keys[0]) + SumOver(keys[1..], counts)
  }

  /** `get_seed_category_counts`: one pass over the seeds, bumping the count of each one's category. */
  method SeedCategoryCounts(seeds: seq<SeedRow>) returns (counts: map<string, nat>)
    ensures counts == CountsOf(seeds)
  {
    counts := map[];
    var i := 0;
    while i < |seeds|
      invariant 0 <= i <= |seeds|
      invariant counts == CountsOf(seeds[..i])
    {
      assert seeds[..i + 1][..i] == seeds[..i];
      var category := if seeds[i].seed.seedType == "" then Uncategorized else seeds[i].seed.seedType;
      counts := counts[category := CountOf(counts, category) + 1];
      i := i + 1;
    }
    assert seeds[..i] == seeds;
  }

  /**
   * The keys are exactly the categories that occur, each counted as often as
   * it occurs; every count is positive.
   */
  lemma {:induction false} CountsAreOccurrences(seeds: seq<SeedRow>)
    ensures forall c :: c in CountsOf(seeds) <==> exists i :: 0 <= i < |seeds| && Category(seeds[i]) == c
    ensures forall c :: CountOf(CountsOf(seeds), c) == SeedsIn(seeds, c)
    ensures forall c :: c in CountsOf(seeds) ==> CountsOf(seeds)[c] > 0
  {
    if seeds != [] {
      var init := seeds[..|seeds| - 1];
      CountsAreOccurrences(init);
      assert forall i :: 0 <= i < |init| ==> init[i] == seeds[i];
    }
  }

  /** The category list holds each key of the counts once. */
  lemma {:induction false} CategoriesAreKeys(seeds: seq<SeedRow>)
    ensures forall c :: c in CategoriesOf(seeds) <==> c in CountsOf(seeds)
    ensures forall i, j :: 0 <= i < j < |CategoriesOf(seeds)| ==> CategoriesOf(seeds)[i] != CategoriesOf(seeds)[j]
  {
    if seeds != [] {
      CategoriesAreKeys(seeds[..|seeds| - 1]);
    }
  }

  /** Bumping one key raises the sum over distinct keys by one exactly when the key is among them. */
  lemma {:induction false} SumOverBump(keys: seq<string>, counts: map<string, nat>, key: string)
    requires forall i, j :: 0 <= i < j < |keys| ==> keys[i] != keys[j]
    ensures SumOver(keys, counts[key := CountOf(counts, key) + 1]) == SumOver(keys, counts) + (if key in keys then 1 else 0)
  {
    if keys != [] {
      SumOverBump(keys[1..], counts, key);
      assert key in keys[1..] ==> keys[0] != key;
    }
  }

  lemma {:induction false} SumOverAppend(keys: seq<string>, key: string, counts: map<string, nat>)
    ensures SumOver(keys + [key], counts) == SumOver(keys, counts) + CountOf(counts, key)
  {
    if keys != [] {
      assert (keys + [key])[1..] == keys[1..] + [key];
      SumOverAppend(keys[1..], key, counts);
    }
  }

  /** The counts add up to the number of seeds. */
  lemma {:induction false} CountsSumToTotal(seeds: seq<SeedRow>)
    ensures SumOver(CategoriesOf(seeds), CountsOf(seeds)) == |seeds|
  {
    if seeds != [] {
      var init := seeds[..|seeds| - 1];
      var category := Category(seeds[|seeds| - 1]);
      var counts := CountsOf(init);
      var keys := CategoriesOf(init);
      CountsSumToTotal(init);
      CategoriesAreKeys(init);
      SumOverBump(keys, counts, category);
      if category !in counts {
        assert CategoriesOf(seeds) == keys + [category];
        SumOverAppend(keys, category, counts[category := 1]);
      } else {
        assert CategoriesOf(seeds) == keys;
      }
    }
  }

  // ---------------------------------------------------------------------------
  // tasks_list

  /** A task as the task list shows it: status normalised and a priority filled in. */
  datatype ListedTask = ListedTask(row: TaskRow, priority: string)

  /**
   * The normalising loop of `tasks_list`: the status is normalised and, since
   * the task dictionaries carry no priority, every priority becomes "Medium".
   */
  function Listed(row: TaskRow): ListedTask {
    ListedTask(row.(status := Normalize(Some(row.status))), Medium)
  }

  /** Every row as the task list shows it. */
  function ListedAll(rows: seq<TaskRow>): (r: seq<ListedTask>)
    ensures |r| == |rows| && forall i :: 0 <= i < |rows| ==> r[i] == Listed(rows[i])
  {
    seq(|rows|, i requires 0 <= i < |rows| => Listed(rows[i]))
  }

  method NormalizeTasks(tasks: seq<TaskRow>) returns (normalizedTasks: seq<ListedTask>)
    ensures normalizedTasks == ListedAll(tasks)
  {
    normalizedTasks := [];
    var i := 0;
    while i < |tasks|
      invariant 0 <= i <= |tasks|
      invariant |normalizedTasks| == i
      invariant forall j :: 0 <= j < i ==> normalizedTasks[j] == Listed(tasks[j])
    {
      var task := tasks[i];
      var listed := ListedTask(task.(status := Normalize(Some(task.status))), Medium);
      normalizedTasks := normalizedTasks + [listed];
      i := i + 1;
    }
    assert forall j :: 0 <= j < |tasks| ==> normalizedTasks[j] == ListedAll(tasks)[j];
  }

  /** A listed task is counted in the overdue view when it is open and dated; only then is its date parsed. */
  predicate OpenAndDated(t: ListedTask) {
    t.row.status != Done && t.row.status != Cancelled && !Falsy(t.row.dueDate)
  }

  /**
   * The overdue comprehension: None when parsing one of the dates it looks at
   * raises, which aborts the request.
   */
  function OverdueOnly(ts: seq<ListedTask>, today: int, parse: string -> Option<int>): (r: Option<seq<ListedTask>>)
    ensures r.None? <==> exists i :: 0 <= i < |ts| && OpenAndDated(ts[i]) && parse(ts[i].row.dueDate.value).None?
    ensures r.Some? ==> forall t :: t in r.value <==>
      t in ts && OpenAndDated(t) && parse(t.row.dueDate.value).Some? && parse(t.row.dueDate.value).value < today
  {
    if ts == [] then Some([])
    else
      var t := ts[0];
      var rest := OverdueOnly(ts[1..], today, parse);
      assert forall i :: 0 < i < |ts| ==> ts[i] == ts[1..][i - 1];
      assert forall u :: u in ts <==> u == t || u in ts[1..];
      if OpenAndDated(t) && parse(t.row.dueDate.value).None? then None
      else if rest.None? then None
      else if OpenAndDated(t) && parse(t.row.dueDate.value).value < today then Some([t] + rest.value)
      else Some(rest.value)
  }

  /** The test the overdue comprehension applies to a task whose date it could parse. */
  function OverduePred(today: int, parse: string -> Option<int>): ListedTask -> bool {
    (t: ListedTask) => OpenAndDated(t) && parse(t.row.dueDate.value).Some? && parse(t.row.dueDate.value).value < today
  }

  /** When no date fails to parse, the overdue view keeps the passing tasks in their listed order, each as often as it occurs. */
  lemma {:induction false} OverdueOnlyKeeps(ts: seq<ListedTask>, today: int, parse: string -> Option<int>)
    ensures OverdueOnly(ts, today, parse).Some? ==> OverdueOnly(ts, today, parse) == Some(Keep(ts, OverduePred(today, parse)))
  {
    if ts != [] {
      OverdueOnlyKeeps(ts[1..], today, parse);
      var p := OverduePred(today, parse);
      assert Keep(ts, p) == (if p(ts[0]) then [ts[0]] else []) + Keep(ts[1..], p);
      if !p(ts[0]) {
        assert [] + Keep(ts[1..], p) == Keep(ts[1..], p);
      }
    }
  }

  /** The filters of `tasks_list`, in order: by status view, then by priority. None when a date does not parse. */
  function FilterTasks(ts: seq<ListedTask>, filter: Option<string>, priority: Option<string>,
                       today: int, parse: string -> Option<int>): Option<seq<ListedTask>>
  {
    var byView :=
      if filter == Some("todo") then Some(Keep(ts, (t: ListedTask) => t.row.status == ToDo))
      else if filter == Some("in_progress") then Some(Keep(ts, (t: ListedTask) => t.row.status == InProgress))
      else if filter == Some("done") then Some(Keep(ts, (t: ListedTask) => t.row.status == Done))
      else if filter == Some("cancelled") then Some(Keep(ts, (t: ListedTask) => t.row.status == Cancelled))
      else if filter == Some("overdue") then OverdueOnly(ts, today, parse)
      else Some(ts);
    if byView.None? then None
    else if priority == Some(Low) || priority == Some(Medium) || priority == Some(High) then
      Some(Keep(byView.value, HasPriority(priority.value)))
    else byView
  }

  /** The test of the priority filter. */
  function HasPriority(priority: string): ListedTask -> bool {
    (t: ListedTask) => t.priority == priority
  }

  /** The status that each status view keeps. */
  function ViewStatus(filter: string): Option<string> {
    if filter == "todo" then Some(ToDo)
    else if filter == "in_progress" then Some(InProgress)
    else if filter == "done" then Some(Done)
    else if filter == "cancelled" then Some(Cancelled)
    else None
  }

  /** A status view keeps exactly the tasks whose normalised status is its status. */
  lemma StatusViewKeeps(ts: seq<ListedTask>, filter: string, today: int, parse: string -> Option<int>)
    requires ViewStatus(filter).Some?
    ensures var r := FilterTasks(ts, Some(filter), None, today, parse);
      r.Some? && forall t :: t in r.value <==> t in ts && t.row.status == ViewStatus(filter).value
  {
  }

  /**
   * The overdue view keeps the tasks that are neither Done nor Cancelled and
   * whose due date parses to a day before today; a date it cannot parse fails
   * the whole request.
   */
  lemma OverdueViewKeeps(ts: seq<ListedTask>, today: int, parse: string -> Option<int>)
    ensures var r := FilterTasks(ts, Some("overdue"), None, today, parse);
      && (r.None? <==> exists i :: 0 <= i < |ts| && OpenAndDated(ts[i]) && parse(ts[i].row.dueDate.value).None?)
      && (r.Some? ==> forall t :: t in r.value <==>
            t in ts && t.row.status !in {Done, Cancelled} && !Falsy(t.row.dueDate)
            && parse(t.row.dueDate.value).Some? && parse(t.row.dueDate.value).value < today)
  {
  }

  /** Any other view keeps everything, as does a priority other than Low, Medium or High. */
  lemma OtherFiltersKeepAll(ts: seq<ListedTask>, filter: Option<string>, priority: Option<string>,
                            today: int, parse: string -> Option<int>)
    requires filter.None? || (ViewStatus(filter.value).None? && filter.value != "overdue")
    requires priority !in {Some(Low), Some(Medium), Some(High)}
    ensures FilterTasks(ts, filter, priority, today, parse) == Some(ts)
  {
  }

  /**
   * Because every listed task has priority "Medium", the Medium filter keeps
   * them all and the Low and High filters keep none.
   */
  lemma PriorityFilterOnListed(rows: seq<TaskRow>, priority: string, today: int, parse: string -> Option<int>)
    requires priority in {Low, Medium, High}
    ensures var ts := ListedAll(rows);
      (priority == Medium ==> FilterTasks(ts, None, Some(priority), today, parse) == Some(ts))
      && (priority != Medium ==> FilterTasks(ts, None, Some(priority), today, parse) == Some([]))
  {
    var ts := ListedAll(rows);
    assert forall i :: 0 <= i < |ts| ==> ts[i].priority == Medium;
    PriorityFilterOnMedium(ts, priority, today, parse);
  }

  /** The priority filter over tasks that all have priority "Medium". */
  lemma PriorityFilterOnMedium(ts: seq<ListedTask>, priority: string, today: int, parse: string -> Option<int>)
    requires forall i :: 0 <= i < |ts| ==> ts[i].priority == Medium
    requires priority in {Low, Medium, High}
    ensures priority == Medium ==> FilterTasks(ts, None, Some(priority), today, parse) == Some(ts)
    ensures priority != Medium ==> FilterTasks(ts, None, Some(priority), today, parse) == Some([])
  {
    var kept := Keep(ts, HasPriority(priority));
    assert FilterTasks(ts, None, Some(priority), today, parse) == Some(kept);
    if priority == Medium {
      KeepAll(ts, HasPriority(priority));
    } else {
      KeepNone(ts, HasPriority(priority));
    }
  }

  /** `tasks_list`: all tasks, normalised and filtered. */
  method TasksList(st: Store, filter: Option<string>, priority: Option<string>, today: int,
                   parse: string -> Option<int>) returns (r: Option<seq<ListedTask>>)
    requires st.Valid()
    ensures r == FilterTasks(ListedAll(st.AllTasks()), filter, priority, today, parse)
  {
    var tasks := st.AllTasks();
    var normalizedTasks := NormalizeTasks(tasks);
    r := FilterTasks(normalizedTasks, filter, priority, today, parse);
  }

  // ---------------------------------------------------------------------------
  // update_task_status and bulk_update_tasks

  /** The patch `update_task_status` sends: the normalised status, and the completion time it implies. */
  function StatusPatch(status: string, now: string): TaskPatch {
    var normalizedStatus := Normalize(Some(status));
    TaskPatch(Some(normalizedStatus), None, None,
              if normalizedStatus == Done then Some(Some(now))
              else if normalizedStatus in {ToDo, InProgress, Cancelled} then Some(None)
              else None,
              None, None)
  }

  /**
   * Done stamps `completed_at` with now; the other canonical statuses clear it;
   * an unrecognised status leaves it alone. The status is always patched.
   */
  lemma StatusPatchTransition(status: string, now: string)
    ensures var p := StatusPatch(status, now);
      var n := Normalize(Some(status));
      && p.status == Some(n) && !p.IsEmpty()
      && p.priority.None? && p.dueDate.None? && p.description.None?
      && (n == Done ==> p.completedAt == Some(Some(now)))
      && (n in {ToDo, InProgress, Cancelled} ==> p.completedAt == Some(None))
      && (!IsCanonicalStatus(n) ==> p.completedAt.None?)
  {
  }

  /** Marking a task done records now as its completion time; reopening it clears that. */
  lemma StatusUpdateEffect(t: Task, status: string, now: string)
    ensures var r := ApplyTaskPatch(t, StatusPatch(status, now), now);
      var n := Normalize(Some(status));
      && r.status == n && r.updatedAt == now && r.priority == t.priority && r.dueDate == t.dueDate
      && (n == Done ==> r.completedAt == Some(now))
      && (n in {ToDo, InProgress, Cancelled} ==> r.completedAt.None?)
      && (!IsCanonicalStatus(n) ==> r.completedAt == t.completedAt)
  {
  }

  /** `update_task_status`: normalise, patch, update. */
  method UpdateTaskStatus(st: Store, taskId: int, status: string, now: string) returns (ok: bool)
    requires st.Valid()
    modifies st
    ensures st.Valid()
    ensures ok <==> taskId in old(st.tasks)
    ensures ok ==> st.tasks == old(st.tasks)[taskId := ApplyTaskPatch(old(st.tasks)[taskId], StatusPatch(status, now), now)]
    ensures !ok ==> st.tasks == old(st.tasks)
    ensures st.seeds == old(st.seeds) && st.inventory == old(st.inventory) && st.adjustments == old(st.adjustments)
  {
    var normalizedStatus := Normalize(Some(status));
    var updates := TaskPatch(Some(normalizedStatus), None, None, None, None, None);
    if normalizedStatus == Done {
      updates := updates.(completedAt := Some(Some(now)));
    } else if normalizedStatus in {ToDo, InProgress, Cancelled} {
      updates := updates.(completedAt := Some(None));
    }
    assert updates == StatusPatch(status, now);
    ok := st.UpdateTask(taskId, updates, now);
  }

  /**
   * The patch `bulk_update_tasks` builds: a given status (normalised) with its
   * completion time, now for Done and cleared for anything else; a given
   * priority; a given due date. Empty form fields contribute nothing.
   */
  function BulkPatch(status: Option<string>, priority: Option<string>, dueDate: Option<string>, now: string): TaskPatch {
    var normalizedStatus := Normalize(status);
    TaskPatch(if Falsy(status) then None else Some(normalizedStatus),
              if Falsy(priority) then None else priority,
              if Falsy(dueDate) then None else Some(dueDate),
              if Falsy(status) then None else if normalizedStatus == Done then Some(Some(now)) else Some(None),
              None, None)
  }

  /**
   * Each key of the bulk patch is present exactly when its form field was
   * filled in; unlike the single status update, any status other than Done
   * clears the completion time.
   */
  lemma BulkPatchContents(status: Option<string>, priority: Option<string>, dueDate: Option<string>, now: string)
    ensures var p := BulkPatch(status, priority, dueDate, now);
      && (p.status.Some? <==> !Falsy(status)) && (p.completedAt.Some? <==> !Falsy(status))
      && (!Falsy(status) ==> p.status == Some(Normalize(status)))
      && (!Falsy(status) && Normalize(status) == Done ==> p.completedAt == Some(Some(now)))
      && (!Falsy(status) && Normalize(status) != Done ==> p.completedAt == Some(None))
      && (p.priority.Some? <==> !Falsy(priority)) && (p.priority.Some? ==> p.priority == priority)
      && (p.dueDate.Some? <==> !Falsy(dueDate)) && (p.dueDate.Some? ==> p.dueDate == Some(dueDate))
      && (p.IsEmpty() <==> Falsy(status) && Falsy(priority) && Falsy(dueDate))
  {
  }

  datatype BulkOutcome = NoTasksSelected | NothingToChange | Applied

  /** The tasks after the same patch was applied to each listed id that exists. */
  function PatchAll(tasks: map<int, Task>, ids: seq<int>, patch: TaskPatch, now: string): (r: map<int, Task>)
    ensures r.Keys == tasks.Keys
    ensures forall k :: k in tasks ==> r[k] == if k in ids then ApplyTaskPatch(tasks[k], patch, now) else tasks[k]
  {
    map k | k in tasks :: if k in ids then ApplyTaskPatch(tasks[k], patch, now) else tasks[k]
  }

  /** Patching one more id: the row gets the patch once more, which changes nothing if it already had it. */
  lemma PatchAllStep(tasks: map<int, Task>, ids: seq<int>, k: int, patch: TaskPatch, now: string)
    ensures var m := PatchAll(tasks, ids, patch, now);
      && (k in m ==> PatchAll(tasks, ids + [k], patch, now) == m[k := ApplyTaskPatch(m[k], patch, now)])
      && (k !in m ==> PatchAll(tasks, ids + [k], patch, now) == m)
  {
    var m := PatchAll(tasks, ids, patch, now);
    var m' := PatchAll(tasks, ids + [k], patch, now);
    if k in m {
      assert m'[k] == ApplyTaskPatch(m[k], patch, now);
    }
  }

  /** The loop of `bulk_update_tasks`: the same patch applied to each listed id in turn. */
  method PatchEach(st: Store, taskIds: seq<int>, updates: TaskPatch, now: string)
    requires st.Valid() && !updates.IsEmpty()
    modifies st
    ensures st.Valid()
    ensures st.tasks == PatchAll(old(st.tasks), taskIds, updates, now)
    ensures st.seeds == old(st.seeds) && st.inventory == old(st.inventory) && st.adjustments == old(st.adjustments)
  {
    for i := 0 to |taskIds|
      invariant st.Valid()
      invariant st.tasks == PatchAll(old(st.tasks), taskIds[..i], updates, now)
      invariant st.seeds == old(st.seeds) && st.inventory == old(st.inventory) && st.adjustments == old(st.adjustments)
    {
      var taskId := taskIds[i];
      PatchAllStep(old(st.tasks), taskIds[..i], taskId, updates, now);
      var ok := st.UpdateTask(taskId, updates, now);
      assert taskIds[..i + 1] == taskIds[..i] + [taskId];
    }
    assert taskIds[..|taskIds|] == taskIds;
  }

  /**
   * `bulk_update_tasks`: an empty selection is an error and an empty patch
   * does nothing; otherwise the one patch is applied to every listed task.
   * Listing an id twice is the same as listing it once.
   */
  method BulkUpdateTasks(st: Store, taskIds: seq<int>, status: Option<string>, priority: Option<string>,
                         dueDate: Option<string>, now: string)
    returns (outcome: BulkOutcome)
    requires st.Valid()
    modifies st
    ensures st.Valid()
    ensures outcome == NoTasksSelected <==> taskIds == []
    ensures outcome == NothingToChange <==> taskIds != [] && BulkPatch(status, priority, dueDate, now).IsEmpty()
    ensures outcome == Applied ==> st.tasks == PatchAll(old(st.tasks), taskIds, BulkPatch(status, priority, dueDate, now), now)
    ensures outcome != Applied ==> st.tasks == old(st.tasks)
    ensures st.seeds == old(st.seeds) && st.inventory == old(st.inventory) && st.adjustments == old(st.adjustments)
  {
    if taskIds == [] {
      return NoTasksSelected;
    }
    var updates := TaskPatch(None, None, None, None, None, None);
    if !Falsy(status) {
      var normalizedStatus := Normalize(status);
      updates := updates.(status := Some(normalizedStatus));
      if normalizedStatus == Done {
        updates := updates.(completedAt := Some(Some(now)));
      } else {
        updates := updates.(completedAt := Some(None));
      }
    }
    if !Falsy(priority) {
      updates := updates.(priority := priority);
    }
    if !Falsy(dueDate) {
      updates := updates.(dueDate := Some(dueDate));
    }
    assert updates == BulkPatch(status, priority, dueDate, now);
    if updates.IsEmpty() {
      return NothingToChange;
    }
    PatchEach(st, taskIds, updates, now);
    outcome := Applied;
  }

  // ---------------------------------------------------------------------------
  // update_inventory_post

  /** The `amount_change` text of a manual update. */
  function AmountChange(oldAmount: string, newAmount: string): string {
    "From '" + oldAmount + "' to '" + newAmount + "'"
  }

  /** The adjustment `update_inventory_post` logs when the amount changes. */
  function ManualUpdate(seedId: int, oldAmount: string, newAmount: string, now: string): Adjustment {
    NewAdjustment(seedId, "Manual Update", AmountChange(oldAmount, newAmount), "Inventory update from UI", None, now)
  }

  /** The amount before the update: the record's, or "" for the record get-or-create makes. */
  function AmountBefore(current: Option<InventoryRow>): string {
    if current.Some? then current.value.currentAmount else ""
  }

  /**
   * `update_inventory_post`: the seed's record (made first if missing) takes
   * the form's four values; exactly one "Manual Update" adjustment is logged,
   * and only when the amount differs from the old one. For a seed that does
   * not exist the first store call fails and nothing changes.
   */
  method UpdateInventoryPost(st: Store, seedId: int, currentAmount: string, buyMore: bool, extra: bool,
                             notes: string, now: string)
    returns (ok: bool, logged: Option<int>)
    requires st.Valid()
    modifies st
    ensures st.Valid()
    ensures ok <==> seedId in old(st.seeds)
    ensures !ok ==> st.inventory == old(st.inventory) && st.adjustments == old(st.adjustments) && logged.None?
    ensures ok ==> (st.FindInventory(seedId).Some?
      && st.inventory[st.FindInventory(seedId).value] == Inventory(seedId, currentAmount, buyMore, extra, notes, now))
    ensures forall k :: k in old(st.inventory) && old(st.inventory)[k].seedId != seedId ==>
      k in st.inventory && st.inventory[k] == old(st.inventory)[k]
    ensures ok ==> st.inventory.Keys == old(st.inventory).Keys + {st.FindInventory(seedId).value}
    ensures ok && AmountBefore(old(st.CurrentInventory(seedId))) != currentAmount ==>
      logged.Some? && logged.value !in old(st.adjustments)
      && st.adjustments == old(st.adjustments)[logged.value :=
           ManualUpdate(seedId, AmountBefore(old(st.CurrentInventory(seedId))), currentAmount, now)]
    ensures ok && AmountBefore(old(st.CurrentInventory(seedId))) == currentAmount ==>
      logged.None? && st.adjustments == old(st.adjustments)
    ensures st.seeds == old(st.seeds) && st.tasks == old(st.tasks)
  {
    logged := None;
    var inventory := st.GetOrCreateInventory(seedId, now);
    if inventory.None? {
      return false, None;
    }
    var oldAmount := inventory.value.currentAmount;
    assert oldAmount == AmountBefore(old(st.CurrentInventory(seedId)));
    var updates := InventoryPatch(Some(currentAmount), Some(buyMore), Some(extra), Some(notes), None);
    ghost var k := st.FindInventory(seedId).value;
    assert st.inventory.Keys == old(st.inventory).Keys + {k};
    var updated := st.UpdateInventory(seedId, updates, now);
    assert st.inventory[k] == Inventory(seedId, currentAmount, buyMore, extra, notes, now);
    assert st.FindInventory(seedId) == Some(k);
    if oldAmount != currentAmount {
      var adjustment := NewAdjustment(seedId, "Manual Update", "From '" + oldAmount + "' to '" + currentAmount + "'",
                                      "Inventory update from UI", None, now);
      logged := st.CreateAdjustment(adjustment, now);
    }
    ok := true;
  }

  // ---------------------------------------------------------------------------
  // update_seed_post

  /** `d if d else None`: an empty date field means no date. */
  function DateField(d: Option<string>): (r: Option<string>)
    ensures Falsy(d) <==> r.None?
    ensures r.Some? ==> r == d
  {
    if Falsy(d) then None else d
  }

  /** The update dictionary of the seed form: every field present, each empty date turned into None. */
  function SeedFormPatch(name: string, seedType: string, packetsMade: int, seedSource: string,
                         dateOrdered: Option<string>, dateFinished: Option<string>,
                         dateCataloged: Option<string>, dateRanOut: Option<string>, amountText: string): (p: SeedPatch)
    ensures !p.IsEmpty()
    ensures p.createdAt.None? && p.updatedAt.None?
  {
    SeedPatch(Some(seedType), Some(name), Some(packetsMade), Some(seedSource),
              Some(DateField(dateOrdered)), Some(DateField(dateFinished)),
              Some(DateField(dateCataloged)), Some(DateField(dateRanOut)), Some(amountText), None, None)
  }

  /** The seed after the form is saved: every edited field replaced, the creation time kept. */
  function EditedSeed(s: Seed, name: string, seedType: string, packetsMade: int, seedSource: string,
                      dateOrdered: Option<string>, dateFinished: Option<string>,
                      dateCataloged: Option<string>, dateRanOut: Option<string>, amountText: string,
                      now: string): (r: Seed)
    ensures r.name == name && r.seedType == seedType && r.packetsMade == packetsMade && r.seedSource == seedSource
    ensures r.dateOrdered == DateField(dateOrdered) && r.dateFinished == DateField(dateFinished)
    ensures r.dateCataloged == DateField(dateCataloged) && r.dateRanOut == DateField(dateRanOut)
    ensures r.amountText == amountText && r.createdAt == s.createdAt && r.updatedAt == now
  {
    ApplySeedPatch(s, SeedFormPatch(name, seedType, packetsMade, seedSource, dateOrdered, dateFinished,
                                    dateCataloged, dateRanOut, amountText), now)
  }

  /**
   * `update_seed_post`: the seed takes the form's values, with empty dates
   * stored as None, and task generation then runs for it.
   */
  method UpdateSeedPost(st: Store, seedId: int, name: string, seedType: string, packetsMade: int, seedSource: string,
                        dateOrdered: Option<string>, dateFinished: Option<string>, dateCataloged: Option<string>,
                        dateRanOut: Option<string>, amountText: string, today: int, now: string, iso: int -> string)
    returns (taskIds: seq<int>)
    requires st.Valid()
    modifies st
    ensures st.Valid()
    ensures seedId !in old(st.seeds) ==> st.seeds == old(st.seeds) && st.tasks == old(st.tasks) && taskIds == []
    ensures seedId in old(st.seeds) ==>
      st.seeds == old(st.seeds)[seedId := EditedSeed(old(st.seeds)[seedId], name, seedType, packetsMade, seedSource,
                                                     dateOrdered, dateFinished, dateCataloged, dateRanOut, amountText, now)]
    ensures seedId in old(st.seeds) ==>
      Extends(old(st.tasks), st.tasks, taskIds,
              Plan(seedId, EditedSeed(old(st.seeds)[seedId], name, seedType, packetsMade, seedSource, dateOrdered,
                                      dateFinished, dateCataloged, dateRanOut, amountText, now),
                   ActiveTypes(old(st.TasksBySeed(seedId))), today, now, iso))
    ensures seedId in st.seeds ==> Plan(seedId, st.seeds[seedId], ActiveTypes(st.TasksBySeed(seedId)), today, now, iso) == []
    ensures st.inventory == old(st.inventory) && st.adjustments == old(st.adjustments)
  {
    var updates := SeedFormPatch(name, seedType, packetsMade, seedSource, dateOrdered, dateFinished,
                                 dateCataloged, dateRanOut, amountText);
    ghost var bySeed := st.TasksBySeed(seedId);
    var ok := st.UpdateSeed(seedId, updates, now);
    assert st.TasksBySeed(seedId) == bySeed;
    taskIds := AutoGenerateTasksForSeed(st, seedId, today, now, iso);
  }

  // ---------------------------------------------------------------------------
  // print_labels

  /** The seeds the listed ids name, in the listed order, skipping ids that name none. */
  function SelectedSeeds(seeds: map<int, Seed>, ids: seq<int>): (r: seq<SeedRow>)
    ensures |r| <= |ids|
    ensures forall row :: row in r ==> row.id in ids && row.id in seeds && row.seed == seeds[row.id]
    ensures forall i :: 0 <= i < |ids| && ids[i] in seeds ==> SeedRow(ids[i], seeds[ids[i]]) in r
  {
    if ids == [] then []
    else
      var init := ids[..|ids| - 1];
      var id := ids[|ids| - 1];
      assert forall i :: 0 <= i < |ids| - 1 ==> ids[i] == init[i];
      SelectedSeeds(seeds, init) + (if id in seeds then [SeedRow(id, seeds[id])] else [])
  }

  /** When every id names a seed, the labels are exactly those seeds in the given order. */
  lemma {:induction false} AllIdsSelected(seeds: map<int, Seed>, ids: seq<int>)
    requires forall i :: 0 <= i < |ids| ==> ids[i] in seeds
    ensures |SelectedSeeds(seeds, ids)| == |ids|
    ensures forall i :: 0 <= i < |ids| ==> SelectedSeeds(seeds, ids)[i] == SeedRow(ids[i], seeds[ids[i]])
  {
    if ids != [] {
      var init := ids[..|ids| - 1];
      var last := ids[|ids| - 1];
      AllIdsSelected(seeds, init);
      assert SelectedSeeds(seeds, ids) == SelectedSeeds(seeds, init) + [SeedRow(last, seeds[last])];
      forall i | 0 <= i < |ids| - 1
        ensures SelectedSeeds(seeds, ids)[i] == SeedRow(ids[i], seeds[ids[i]])
      {
        assert init[i] == ids[i];
      }
    }
  }

  /** One more id adds its seed, if it exists, at the end. */
  lemma SelectedSeedsSnoc(seeds: map<int, Seed>, ids: seq<int>, id: int)
    ensures SelectedSeeds(seeds, ids + [id])
      == SelectedSeeds(seeds, ids) + (if id in seeds then [SeedRow(id, seeds[id])] else [])
  {
    assert (ids + [id])[..|ids|] == ids;
  }

  /** Selecting from a concatenation selects from each part, in order. */
  lemma {:induction false} SelectedSeedsAppend(seeds: map<int, Seed>, a: seq<int>, b: seq<int>)
    ensures SelectedSeeds(seeds, a + b) == SelectedSeeds(seeds, a) + SelectedSeeds(seeds, b)
    decreases |b|
  {
    if b == [] {
      assert a + b == a;
    } else {
      var init := b[..|b| - 1];
      var last := b[|b| - 1];
      assert b == init + [last];
      assert a + b == (a + init) + [last];
      calc {
        SelectedSeeds(seeds, a + b);
      == { SelectedSeedsSnoc(seeds, a + init, last); }
        SelectedSeeds(seeds, a + init) + (if last in seeds then [SeedRow(last, seeds[last])] else []);
      == { SelectedSeedsAppend(seeds, a, init); }
        SelectedSeeds(seeds, a) + SelectedSeeds(seeds, init) + (if last in seeds then [SeedRow(last, seeds[last])] else []);
      == { SelectedSeedsSnoc(seeds, init, last); }
        SelectedSeeds(seeds, a) + SelectedSeeds(seeds, b);
      }
    }
  }

  /** A single id selects its seed when it exists and nothing otherwise. */
  lemma SelectedSeedsOne(seeds: map<int, Seed>, id: int)
    ensures SelectedSeeds(seeds, [id]) == if id in seeds then [SeedRow(id, seeds[id])] else []
  {
    assert [id][..0] == [];
  }

  const NothingSelected := "Please select at least one seed to print."
  const NoValidSeeds := "No valid seeds found for printing."

  /** `print_labels`: the selected seeds, or the error message the page shows. */
  method PrintLabels(st: Store, seedIds: Option<seq<int>>) returns (r: Result<seq<SeedRow>, string>)
    ensures (seedIds.None? || seedIds.value == []) ==> r == Err(NothingSelected)
    ensures seedIds.Some? && seedIds.value != [] ==>
      var selected := SelectedSeeds(st.seeds, seedIds.value);
      (selected == [] ==> r == Err(NoValidSeeds)) && (selected != [] ==> r == Ok(selected))
  {
    if seedIds.None? || seedIds.value == [] {
      return Err(NothingSelected);
    }
    var ids := seedIds.value;
    var selectedSeeds := [];
    for i := 0 to |ids|
      invariant selectedSeeds == SelectedSeeds(st.seeds, ids[..i])
    {
      assert ids[..i + 1][..i] == ids[..i];
      var seed := st.SeedById(ids[i]);
      if seed.Some? {
        selectedSeeds := selectedSeeds + [seed.value];
      }
    }
    assert ids[..|ids|] == ids;
    if selectedSeeds == [] {
      return Err(NoValidSeeds);
    }
    return Ok(selectedSeeds);
  }

  // ---------------------------------------------------------------------------
  // inventory_list

  /** The inventory view: records flagged "buy more", records flagged "extra", or all. */
  function FilterInventory(items: seq<InventoryRow>, filter: Option<string>): (r: seq<InventoryRow>)
    ensures filter == Some("buy_more") ==> forall row :: row in r <==> row in items && row.buyMore
    ensures filter == Some("extra") ==> forall row :: row in r <==> row in items && row.extra
    ensures filter != Some("buy_more") && filter != Some("extra") ==> r == items
  {
    if filter == Some("buy_more") then Keep(items, (i: InventoryRow) => i.buyMore)
    else if filter == Some("extra") then Keep(items, (i: InventoryRow) => i.extra)
    else items
  }

  /** `inventory_list`: every record joined with its seed, by seed name, then filtered. */
  method InventoryList(st: Store, filter: Option<string>) returns (items: seq<InventoryRow>)
    requires st.Valid()
    ensures SortedBy(st.AllInventory(), InventorySeedName, false)
    ensures items == FilterInventory(st.AllInventory(), filter)
  {
    var inventoryItems := st.AllInventory();
    if filter == Some("buy_more") {
      inventoryItems := Keep(inventoryItems, (i: InventoryRow) => i.buyMore);
    } else if filter == Some("extra") {
      inventoryItems := Keep(inventoryItems, (i: InventoryRow) => i.extra);
    }
    items := inventoryItems;
  }
}
