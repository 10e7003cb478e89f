/**
 * The persistence layer of app/database.py over an in-memory store: the four
 * tables are maps from id to record inside one object, each create/update/
 * delete is a method that changes those maps, and each query is a function of
 * them. The foreign keys (enforced, as the engine switches them on) and the
 * one-inventory-per-seed uniqueness are the store's invariant.
 */
module Database {
  import opened Wrappers
  import opened Text
  import opened Sorting
  import opened Models

  /** The value a patched column ends with: the patch's value when the key is there, else the old one. */
  function Pick<T>(current: T, patched: Option<T>): T {
    if patched.Some? then patched.value else current
  }

  /** An update dict for a seed; `None` means the key is absent. */
  datatype SeedPatch = SeedPatch(
    seedType: Option<string>, name: Option<string>, packetsMade: Option<int>,
    seedSource: Option<string>, dateOrdered: Option<Option<string>>,
    dateFinished: Option<Option<string>>, dateCataloged: Option<Option<string>>,
    dateRanOut: Option<Option<string>>, amountText: Option<string>,
    createdAt: Option<string>, updatedAt: Option<string>)
  {
    predicate IsEmpty() {
      seedType.None? && name.None? && packetsMade.None? && seedSource.None? && dateOrdered.None?
      && dateFinished.None? && dateCataloged.None? && dateRanOut.None? && amountText.None?
      && createdAt.None? && updatedAt.None?
    }
  }

  /** An update dict for a task; `None` means the key is absent. */
  datatype TaskPatch = TaskPatch(
    status: Option<string>, priority: Option<string>, dueDate: Option<Option<string>>,
    completedAt: Option<Option<string>>, description: Option<string>, updatedAt: Option<string>)
  {
    predicate IsEmpty() {
      status.None? && priority.None? && dueDate.None? && completedAt.None? && description.None?
      && updatedAt.None?
    }
  }

  /** An update dict for an inventory record; `None` means the key is absent. */
  datatype InventoryPatch = InventoryPatch(
    currentAmount: Option<string>, buyMore: Option<bool>, extra: Option<bool>,
    notes: Option<string>, lastUpdated: Option<string>)
  {
    predicate IsEmpty() {
      currentAmount.None? && buyMore.None? && extra.None? && notes.None? && lastUpdated.None?
    }
  }

  /** The `setattr` loop of `update_seed` after `updated_at` was forced to now. */
  function ApplySeedPatch(s: Seed, p: SeedPatch, now: string): Seed {
    Seed(Pick(s.seedType, p.seedType), Pick(s.name, p.name), Pick(s.packetsMade, p.packetsMade),
         Pick(s.seedSource, p.seedSource), Pick(s.dateOrdered, p.dateOrdered),
         Pick(s.dateFinished, p.dateFinished), Pick(s.dateCataloged, p.dateCataloged),
         Pick(s.dateRanOut, p.dateRanOut), Pick(s.amountText, p.amountText),
         Pick(s.createdAt, p.createdAt), now)
  }

  /** The `setattr` loop of `update_task` after `updated_at` was forced to now. */
  function ApplyTaskPatch(t: Task, p: TaskPatch, now: string): Task {
    Task(t.seedId, t.taskType, Pick(t.status, p.status), Pick(t.priority, p.priority),
         Pick(t.dueDate, p.dueDate), Pick(t.completedAt, p.completedAt),
         Pick(t.description, p.description), t.createdAt, now)
  }

  /** The `setattr` loop of `update_inventory` after `last_updated` was forced to now. */
  function ApplyInventoryPatch(i: Inventory, p: InventoryPatch, now: string): Inventory {
    Inventory(i.seedId, Pick(i.currentAmount, p.currentAmount), Pick(i.buyMore, p.buyMore),
              Pick(i.extra, p.extra), Pick(i.notes, p.notes), now)
  }

  /**
   * What an update does to a row: every patched column takes the patch's value,
   * every other column keeps its value, and the modified timestamp becomes now
   * even when the patch supplied one. Applying the same patch again changes nothing.
   */
  lemma PatchLaws(s: Seed, sp: SeedPatch, t: Task, tp: TaskPatch, i: Inventory, ip: InventoryPatch, now: string)
    ensures var r := ApplySeedPatch(s, sp, now);
      r.updatedAt == now
      && (sp.name.Some? ==> r.name == sp.name.value) && (sp.name.None? ==> r.name == s.name)
      && (sp.seedType.Some? ==> r.seedType == sp.seedType.value) && (sp.seedType.None? ==> r.seedType == s.seedType)
      && (sp.packetsMade.Some? ==> r.packetsMade == sp.packetsMade.value) && (sp.packetsMade.None? ==> r.packetsMade == s.packetsMade)
      && (sp.dateFinished.Some? ==> r.dateFinished == sp.dateFinished.value) && (sp.dateFinished.None? ==> r.dateFinished == s.dateFinished)
      && (sp.createdAt.None? ==> r.createdAt == s.createdAt)
      && ApplySeedPatch(r, sp, now) == r
    ensures var r := ApplyTaskPatch(t, tp, now);
      r.updatedAt == now && r.seedId == t.seedId && r.taskType == t.taskType && r.createdAt == t.createdAt
      && (tp.status.Some? ==> r.status == tp.status.value) && (tp.status.None? ==> r.status == t.status)
      && (tp.completedAt.Some? ==> r.completedAt == tp.completedAt.value) && (tp.completedAt.None? ==> r.completedAt == t.completedAt)
      && (tp.priority.None? ==> r.priority == t.priority)
      && ApplyTaskPatch(r, tp, now) == r
    ensures var r := ApplyInventoryPatch(i, ip, now);
      r.lastUpdated == now && r.seedId == i.seedId
      && (ip.currentAmount.Some? ==> r.currentAmount == ip.currentAmount.value)
      && (ip.currentAmount.None? ==> r.currentAmount == i.currentAmount)
      && ApplyInventoryPatch(r, ip, now) == r
  {
  }

  datatype SeedRow = SeedRow(id: int, seed: Seed)

  /** `_task_to_dict`: note that it has no `priority` key. */
  datatype TaskRow = TaskRow(
    id: int, seedId: int, taskType: string, status: string, dueDate: Option<string>,
    completedAt: Option<string>, description: string, createdAt: string, updatedAt: string,
    seedName: Option<string>, seedType: Option<string>)

  datatype InventoryRow = InventoryRow(
    id: int, seedId: int, currentAmount: string, buyMore: bool, extra: bool, notes: string,
    lastUpdated: string, seedName: Option<string>, seedType: Option<string>)

  datatype AdjustmentRow = AdjustmentRow(
    id: int, seedId: int, adjustmentType: string, amountChange: string, reason: string,
    adjustedAt: string, seedName: Option<string>)

  function TaskToRow(id: int, t: Task, seed: Option<Seed>): TaskRow {
    TaskRow(id, t.seedId, t.taskType, t.status, t.dueDate, t.completedAt, t.description,
            t.createdAt, t.updatedAt,
            if seed.Some? then Some(seed.value.name) else None,
            if seed.Some? then Some(seed.value.seedType) else None)
  }

  function InventoryToRow(id: int, i: Inventory, seed: Option<Seed>): InventoryRow {
    InventoryRow(id, i.seedId, i.currentAmount, i.buyMore, i.extra, i.notes, i.lastUpdated,
                 if seed.Some? then Some(seed.value.name) else None,
                 if seed.Some? then Some(seed.value.seedType) else None)
  }

  function AdjustmentToRow(id: int, a: Adjustment, seed: Option<Seed>): AdjustmentRow {
    AdjustmentRow(id, a.seedId, a.adjustmentType, a.amountChange, a.reason, a.adjustedAt,
                  if seed.Some? then Some(seed.value.name) else None)
  }

  // Sort keys of the queries.
  function SeedCreated(r: SeedRow): string { r.seed.createdAt }
  function TaskCreated(r: TaskRow): string { r.createdAt }
  function InventorySeedName(r: InventoryRow): string { r.seedName.GetOr("") }
  function AdjustmentTime(r: AdjustmentRow): string { r.adjustedAt }

  /** The record `create_seed` stores for the seed it is given. */
  function StoredSeed(s: Seed, now: string): Seed {
    NewSeed(s.seedType, s.name, s.packetsMade, s.seedSource, s.dateOrdered, s.dateFinished,
            s.dateCataloged, s.dateRanOut, s.amountText, Some(s.createdAt), Some(s.updatedAt), now)
  }

  /** The record `create_task` stores: it passes no priority on, so the stored priority is the default. */
  function StoredTask(t: Task, now: string): (r: Task)
    ensures r.priority == Medium
    ensures r.status == Normalize(Some(t.status))
    ensures r.seedId == t.seedId && r.taskType == t.taskType && r.dueDate == t.dueDate
    ensures r.completedAt == t.completedAt && r.description == t.description
    ensures Stamped(r.createdAt, Some(t.createdAt), now) && Stamped(r.updatedAt, Some(t.updatedAt), now)
  {
    NewTask(t.seedId, t.taskType, Some(t.status), None, t.dueDate, t.completedAt, t.description,
            Some(t.createdAt), Some(t.updatedAt), now)
  }

  /**
   * `create_seed` keeps every column of the seed it is given, filling only an
   * empty timestamp with now; a seed with both timestamps set is stored as it is.
   */
  lemma StoredSeedKeepsFields(s: Seed, now: string)
    ensures var r := StoredSeed(s, now);
      && r.seedType == s.seedType && r.name == s.name && r.packetsMade == s.packetsMade
      && r.seedSource == s.seedSource && r.amountText == s.amountText
      && r.dateOrdered == s.dateOrdered && r.dateFinished == s.dateFinished
      && r.dateCataloged == s.dateCataloged && r.dateRanOut == s.dateRanOut
      && Stamped(r.createdAt, Some(s.createdAt), now) && Stamped(r.updatedAt, Some(s.updatedAt), now)
    ensures s.createdAt != "" && s.updatedAt != "" ==> StoredSeed(s, now) == s
  {
  }

  /** The record `create_inventory_adjustment` stores. */
  function StoredAdjustment(a: Adjustment, now: string): Adjustment {
    NewAdjustment(a.seedId, a.adjustmentType, a.amountChange, a.reason, Some(a.adjustedAt), now)
  }

  /** `after` is `before` plus the records `added`, stored under the distinct fresh ids `ids`. */
  ghost predicate Extends<V>(before: map<int, V>, after: map<int, V>, ids: seq<int>, added: seq<V>) {
    && |ids| == |added|
    && (forall i :: 0 <= i < |ids| ==> ids[i] !in before && ids[i] in after && after[ids[i]] == added[i])
    && (forall i, j :: 0 <= i < j < |ids| ==> ids[i] != ids[j])
    && (forall k :: k in after ==> k in before || k in ids)
    && (forall k :: k in before ==> k in after && after[k] == before[k])
  }

  /** Storing one more record under an unused id extends the record of what was added. */
  lemma ExtendsStep<V>(before: map<int, V>, after: map<int, V>, ids: seq<int>, added: seq<V>, k: int, v: V)
    requires Extends(before, after, ids, added) && k !in after
    ensures Extends(before, after[k := v], ids + [k], added + [v])
  {
    assert k !in before;
    forall i | 0 <= i < |ids|
      ensures ids[i] != k
    {
      assert ids[i] in after;
    }
  }

  /** Every id of `m` lies in [1, next). */
  predicate KeysBelow<V>(m: map<int, V>, next: int) {
    forall k :: k in m ==> 1 <= k < next
  }

  /** The ids of `keys` in [lo, hi), ascending (`KeysInFacts`). */
  function KeysIn(keys: set<int>, lo: int, hi: int): seq<int>
    decreases hi - lo
  {
    if lo >= hi then []
    else (if lo in keys then [lo] else []) + KeysIn(keys, lo + 1, hi)
  }

  /** `r` lists exactly the members of `keys` in [lo, hi), each once, in increasing order. */
  predicate ListsKeys(r: seq<int>, keys: set<int>, lo: int, hi: int) {
    (forall i :: 0 <= i < |r| ==> lo <= r[i] < hi && r[i] in keys)
    && (forall k :: lo <= k < hi && k in keys ==> k in r)
    && (forall i, j :: 0 <= i < j < |r| ==> r[i] < r[j])
  }

  lemma {:induction false} KeysInFacts(keys: set<int>, lo: int, hi: int)
    ensures ListsKeys(KeysIn(keys, lo, hi), keys, lo, hi)
    decreases hi - lo
  {
    if lo < hi {
      KeysInFacts(keys, lo + 1, hi);
      var rest := KeysIn(keys, lo + 1, hi);
      if lo in keys {
        ListsKeysCons(keys, lo, hi, rest);
      } else {
        assert KeysIn(keys, lo, hi) == rest;
      }
    }
  }

  /** Putting `lo` in front of the listing of (lo, hi) lists [lo, hi). */
  lemma ListsKeysCons(keys: set<int>, lo: int, hi: int, rest: seq<int>)
    requires lo < hi && lo in keys && ListsKeys(rest, keys, lo + 1, hi)
    ensures ListsKeys([lo] + rest, keys, lo, hi)
  {
    var r := [lo] + rest;
    forall i | 0 <= i < |r| ensures lo <= r[i] < hi && r[i] in keys {
      if i > 0 {
        assert r[i] == rest[i - 1];
      }
    }
    forall k | lo <= k < hi && k in keys ensures k in r {
      if k > lo {
        assert k in rest;
      }
    }
    forall i, j | 0 <= i < j < |r| ensures r[i] < r[j] {
      assert r[j] == rest[j - 1];
      if i > 0 {
        assert r[i] == rest[i - 1];
      }
    }
  }

  /** The members of `keys` in [lo, hi). */
  function KeysBetween(keys: set<int>, lo: int, hi: int): set<int> {
    set k | k in keys && lo <= k < hi
  }

  /** `KeysIn` lists as many ids as the range holds keys. */
  lemma {:induction false} KeysInCount(keys: set<int>, lo: int, hi: int)
    ensures |KeysIn(keys, lo, hi)| == |KeysBetween(keys, lo, hi)|
    decreases hi - lo
  {
    if lo >= hi {
      assert KeysBetween(keys, lo, hi) == {};
    } else {
      KeysInCount(keys, lo + 1, hi);
      var rest := KeysBetween(keys, lo + 1, hi);
      assert lo !in rest;
      if lo in keys {
        assert KeysBetween(keys, lo, hi) == rest + {lo};
      } else {
        assert KeysBetween(keys, lo, hi) == rest;
      }
    }
  }

  /** With every key below `next`, listing [1, next) lists as many ids as the map has keys. */
  lemma KeysInCountAll<V>(m: map<int, V>, next: int)
    requires KeysBelow(m, next)
    ensures |KeysIn(m.Keys, 1, next)| == |m|
  {
    KeysInCount(m.Keys, 1, next);
    assert KeysBetween(m.Keys, 1, next) == m.Keys;
  }

  /** `m` without the rows owned by seed `id`. */
  function DropOwned<V>(m: map<int, V>, owner: V -> int, id: int): (r: map<int, V>)
    ensures forall k :: k in r <==> k in m && owner(m[k]) != id
    ensures forall k :: k in r ==> r[k] == m[k]
  {
    map k | k in m && owner(m[k]) != id :: m[k]
  }

  /** Dropping the rows of seed `id` keeps ids below their counter and every remaining row pointing at a remaining seed. */
  lemma DropOwnedKeepsRefs<V>(m: map<int, V>, owner: V -> int, seeds: map<int, Seed>, id: int, next: int)
    requires KeysBelow(m, next) && forall k :: k in m ==> owner(m[k]) in seeds
    ensures KeysBelow(DropOwned(m, owner, id), next)
    ensures forall k :: k in DropOwned(m, owner, id) ==> owner(DropOwned(m, owner, id)[k]) in seeds - {id}
  {
  }

  function TaskOwner(t: Task): int { t.seedId }
  function InventoryOwner(i: Inventory): int { i.seedId }
  function AdjustmentOwner(a: Adjustment): int { a.seedId }

  /** The seeds of the table in id order, as rows. */
  function SeedRows(m: map<int, Seed>, next: int): (r: seq<SeedRow>)
    requires KeysBelow(m, next)
    ensures forall row :: row in r <==> row.id in m && row.seed == m[row.id]
    ensures forall i, j :: 0 <= i < j < |r| ==> r[i].id < r[j].id
  {
    var ks := KeysIn(m.Keys, 1, next);
    KeysInFacts(m.Keys, 1, next);
    var rows := seq(|ks|, i requires 0 <= i < |ks| => SeedRow(ks[i], m[ks[i]]));
    forall i | 0 <= i < |rows|
      ensures rows[i].id == ks[i] && rows[i] == SeedRow(rows[i].id, m[rows[i].id])
    {
    }
    forall row: SeedRow | row.id in m && row.seed == m[row.id]
      ensures row in rows
    {
      var i :| 0 <= i < |ks| && ks[i] == row.id;
      assert rows[i] == row;
    }
    rows
  }

  /** The row of `m` under `k`, if any: the outer join of the listing queries. */
  function Lookup<V>(m: map<int, V>, k: int): (r: Option<V>)
    ensures r.Some? <==> k in m
    ensures r.Some? ==> r.value == m[k]
  {
    if k in m then Some(m[k]) else None
  }

  /** The tasks of the table in id order, as rows; `join` supplies the seed each row is joined with. */
  function TaskRows(m: map<int, Task>, next: int, join: int -> Option<Seed>): (r: seq<TaskRow>)
    requires KeysBelow(m, next)
    ensures forall row :: row in r <==> row.id in m && row == TaskToRow(row.id, m[row.id], join(m[row.id].seedId))
    ensures forall i, j :: 0 <= i < j < |r| ==> r[i].id < r[j].id
    ensures |r| == |m|
  {
    var ks := KeysIn(m.Keys, 1, next);
    KeysInFacts(m.Keys, 1, next);
    KeysInCountAll(m, next);
    var rows := seq(|ks|, i requires 0 <= i < |ks| => TaskToRow(ks[i], m[ks[i]], join(m[ks[i]].seedId)));
    forall i | 0 <= i < |rows|
      ensures rows[i].id == ks[i] && rows[i] == TaskToRow(rows[i].id, m[rows[i].id], join(m[rows[i].id].seedId))
    {
      var t := m[ks[i]];
      assert rows[i] == TaskToRow(ks[i], t, join(t.seedId));
    }
    forall row: TaskRow | row.id in m && row == TaskToRow(row.id, m[row.id], join(m[row.id].seedId))
      ensures row in rows
    {
      var i :| 0 <= i < |ks| && ks[i] == row.id;
      assert rows[i] == row;
    }
    rows
  }

  /** The inventory records in id order, each joined with its seed. */
  function InventoryRows(m: map<int, Inventory>, next: int, seeds: map<int, Seed>): (r: seq<InventoryRow>)
    requires KeysBelow(m, next)
    ensures forall row :: row in r <==> row.id in m && row == InventoryToRow(row.id, m[row.id], Lookup(seeds, m[row.id].seedId))
    ensures forall i, j :: 0 <= i < j < |r| ==> r[i].id < r[j].id
  {
    var ks := KeysIn(m.Keys, 1, next);
    KeysInFacts(m.Keys, 1, next);
    var rows := seq(|ks|, i requires 0 <= i < |ks| => InventoryToRow(ks[i], m[ks[i]], Lookup(seeds, m[ks[i]].seedId)));
    forall i | 0 <= i < |rows|
      ensures rows[i].id == ks[i] && rows[i] == InventoryToRow(rows[i].id, m[rows[i].id], Lookup(seeds, m[rows[i].id].seedId))
    {
    }
    forall row: InventoryRow | row.id in m && row == InventoryToRow(row.id, m[row.id], Lookup(seeds, m[row.id].seedId))
      ensures row in rows
    {
      var i :| 0 <= i < |ks| && ks[i] == row.id;
      assert rows[i] == row;
    }
    rows
  }

  /** The adjustments in id order, each joined with its seed. */
  function AdjustmentRows(m: map<int, Adjustment>, next: int, seeds: map<int, Seed>): (r: seq<AdjustmentRow>)
    requires KeysBelow(m, next)
    ensures forall row :: row in r <==> row.id in m && row == AdjustmentToRow(row.id, m[row.id], Lookup(seeds, m[row.id].seedId))
    ensures forall i, j :: 0 <= i < j < |r| ==> r[i].id < r[j].id
  {
    var ks := KeysIn(m.Keys, 1, next);
    KeysInFacts(m.Keys, 1, next);
    var rows := seq(|ks|, i requires 0 <= i < |ks| => AdjustmentToRow(ks[i], m[ks[i]], Lookup(seeds, m[ks[i]].seedId)));
    forall i | 0 <= i < |rows|
      ensures rows[i].id == ks[i] && rows[i] == AdjustmentToRow(rows[i].id, m[rows[i].id], Lookup(seeds, m[rows[i].id].seedId))
    {
    }
    forall row: AdjustmentRow | row.id in m && row == AdjustmentToRow(row.id, m[row.id], Lookup(seeds, m[row.id].seedId))
      ensures row in rows
    {
      var i :| 0 <= i < |ks| && ks[i] == row.id;
      assert rows[i] == row;
    }
    rows
  }

  /** The first id in [lo, hi) of an inventory record for `seedId`: `one_or_none`, given at most one exists. */
  function FindInventoryIn(m: map<int, Inventory>, seedId: int, lo: int, hi: int): (r: Option<int>)
    ensures r.Some? ==> lo <= r.value < hi && r.value in m && m[r.value].seedId == seedId
    ensures r.None? ==> forall k :: lo <= k < hi && k in m ==> m[k].seedId != seedId
    decreases hi - lo
  {
    if lo >= hi then None
    else if lo in m && m[lo].seedId == seedId then Some(lo)
    else FindInventoryIn(m, seedId, lo + 1, hi)
  }

  /** Python truthiness of the optional `seed_id` filter: None and 0 are false. */
  predicate FilterGiven(seedId: Option<int>) {
    seedId.Some? && seedId.value != 0
  }

  class Store {
    var seeds: map<int, Seed>
    var tasks: map<int, Task>
    var inventory: map<int, Inventory>
    var adjustments: map<int, Adjustment>
    var nextSeedId: int
    var nextTaskId: int
    var nextInventoryId: int
    var nextAdjustmentId: int

    /** Ids are below their counters; every child row references an existing seed; one inventory per seed. */
    ghost predicate Valid()
      reads this
    {
      && 1 <= nextSeedId && 1 <= nextTaskId && 1 <= nextInventoryId && 1 <= nextAdjustmentId
      && KeysBelow(seeds, nextSeedId) && KeysBelow(tasks, nextTaskId)
      && KeysBelow(inventory, nextInventoryId) && KeysBelow(adjustments, nextAdjustmentId)
      && (forall k :: k in tasks ==> tasks[k].seedId in seeds)
      && (forall k :: k in inventory ==> inventory[k].seedId in seeds)
      && (forall k :: k in adjustments ==> adjustments[k].seedId in seeds)
      && (forall j, k :: j in inventory && k in inventory && inventory[j].seedId == inventory[k].seedId ==> j == k)
    }

    constructor ()
      ensures Valid()
      ensures seeds == map[] && tasks == map[] && inventory == map[] && adjustments == map[]
    {
      seeds, tasks, inventory, adjustments := map[], map[], map[], map[];
      nextSeedId, nextTaskId, nextInventoryId, nextAdjustmentId := 1, 1, 1, 1;
    }

    /** `get_seed_by_id`. */
    function SeedById(id: int): (r: Option<SeedRow>)
      reads this
      ensures r.Some? <==> id in seeds
      ensures r.Some? ==> r.value == SeedRow(id, seeds[id])
    {
      if id in seeds then Some(SeedRow(id, seeds[id])) else None
    }

    /** `create_seed`: a fresh id holding the given seed, its empty timestamps set to now. */
    method CreateSeed(seed: Seed, now: string) returns (id: int)
      requires Valid()
      modifies this
      ensures Valid()
      ensures id !in old(seeds)
      ensures seeds == old(seeds)[id := StoredSeed(seed, now)]
      ensures tasks == old(tasks) && inventory == old(inventory) && adjustments == old(adjustments)
    {
      id := nextSeedId;
      seeds := seeds[id := StoredSeed(seed, now)];
      nextSeedId := nextSeedId + 1;
    }

    /** `update_seed`: fails on an empty patch or a missing id; otherwise patches the one row and stamps it. */
    method UpdateSeed(id: int, updates: SeedPatch, now: string) returns (ok: bool)
      requires Valid()
      modifies this
      ensures Valid()
      ensures ok <==> !updates.IsEmpty() && id in old(seeds)
      ensures ok ==> seeds == old(seeds)[id := ApplySeedPatch(old(seeds)[id], updates, now)]
      ensures !ok ==> seeds == old(seeds)
      ensures tasks == old(tasks) && inventory == old(inventory) && adjustments == old(adjustments)
      ensures nextTaskId == old(nextTaskId)
    {
      if updates.IsEmpty() {
        return false;
      }
      if id !in seeds {
        return false;
      }
      seeds := seeds[id := ApplySeedPatch(seeds[id], updates, now)];
      ok := true;
    }

    /** `delete_seed`: fails on a missing id; otherwise removes the seed and, by cascade, its tasks, inventory and adjustments. */
    method DeleteSeed(id: int) returns (ok: bool)
      requires Valid()
      modifies this
      ensures Valid()
      ensures ok <==> id in old(seeds)
      ensures seeds == old(seeds) - {id}
      ensures tasks == DropOwned(old(tasks), TaskOwner, id)
      ensures inventory == DropOwned(old(inventory), InventoryOwner, id)
      ensures adjustments == DropOwned(old(adjustments), AdjustmentOwner, id)
      ensures TasksBySeed(id) == [] && CurrentInventory(id) == None
      ensures id != 0 ==> Adjustments(Some(id)) == []
    {
      if id !in seeds {
        assert forall k :: k in tasks ==> TaskOwner(tasks[k]) != id;
        assert forall k :: k in inventory ==> InventoryOwner(inventory[k]) != id;
        assert forall k :: k in adjustments ==> AdjustmentOwner(adjustments[k]) != id;
        assert DropOwned(tasks, TaskOwner, id) == tasks;
        assert DropOwned(inventory, InventoryOwner, id) == inventory;
        assert DropOwned(adjustments, AdjustmentOwner, id) == adjustments;
        assert seeds - {id} == seeds;
        ok := false;
      } else {
        DropOwnedKeepsRefs(tasks, TaskOwner, seeds, id, nextTaskId);
        DropOwnedKeepsRefs(inventory, InventoryOwner, seeds, id, nextInventoryId);
        DropOwnedKeepsRefs(adjustments, AdjustmentOwner, seeds, id, nextAdjustmentId);
        seeds := seeds - {id};
        tasks := DropOwned(tasks, TaskOwner, id);
        inventory := DropOwned(inventory, InventoryOwner, id);
        adjustments := DropOwned(adjustments, AdjustmentOwner, id);
        ok := true;
      }
      assert id !in seeds;
      NoRowsOfMissingSeed(id);
    }

    /** Once a seed is gone (and the store is valid) no listing shows a row of it. */
    lemma NoRowsOfMissingSeed(id: int)
      requires Valid() && id !in seeds
      ensures TasksBySeed(id) == [] && CurrentInventory(id) == None
      ensures id != 0 ==> Adjustments(Some(id)) == []
    {
    }

    /** `create_task`: a fresh id holding the stored form of the task; the seed reference must exist (foreign key). */
    method CreateTask(task: Task, now: string) returns (id: Option<int>)
      requires Valid()
      modifies this
      ensures Valid()
      ensures id.Some? <==> task.seedId in old(seeds)
      ensures id.Some? ==> id.value !in old(tasks) && tasks == old(tasks)[id.value := StoredTask(task, now)]
      ensures id.None? ==> tasks == old(tasks)
      ensures seeds == old(seeds) && inventory == old(inventory) && adjustments == old(adjustments)
    {
      if task.seedId !in seeds {
        return None;
      }
      var k := nextTaskId;
      tasks := tasks[k := StoredTask(task, now)];
      nextTaskId := nextTaskId + 1;
      id := Some(k);
    }

    /** `update_task`: fails on an empty patch or a missing id; otherwise patches the one row and stamps it. */
    method UpdateTask(id: int, updates: TaskPatch, now: string) returns (ok: bool)
      requires Valid()
      modifies this
      ensures Valid()
      ensures ok <==> !updates.IsEmpty() && id in old(tasks)
      ensures ok ==> tasks == old(tasks)[id := ApplyTaskPatch(old(tasks)[id], updates, now)]
      ensures !ok ==> tasks == old(tasks)
      ensures seeds == old(seeds) && inventory == old(inventory) && adjustments == old(adjustments)
    {
      if updates.IsEmpty() {
        return false;
      }
      if id !in tasks {
        return false;
      }
      tasks := tasks[id := ApplyTaskPatch(tasks[id], updates, now)];
      ok := true;
    }

    /** `delete_task`: fails on a missing id; otherwise removes that one task. */
    method DeleteTask(id: int) returns (ok: bool)
      requires Valid()
      modifies this
      ensures Valid()
      ensures ok <==> id in old(tasks)
      ensures tasks == old(tasks) - {id}
      ensures seeds == old(seeds) && inventory == old(inventory) && adjustments == old(adjustments)
    {
      if id !in tasks {
        assert tasks - {id} == tasks;
        return false;
      }
      tasks := tasks - {id};
      ok := true;
    }

    /** `get_all_tasks`: every task joined with its seed's name and type, newest `created_at` first. */
    function AllTasks(): (r: seq<TaskRow>)
      reads this
      requires Valid()
      ensures SortedBy(r, TaskCreated, true)
      ensures forall row :: row in r <==> row.id in tasks && row == TaskToRow(row.id, tasks[row.id], Lookup(seeds, tasks[row.id].seedId))
      ensures forall i, j :: 0 <= i < j < |r| ==> r[i].id != r[j].id
      ensures |r| == |tasks|
    {
      var s := seeds;
      var rows := TaskRows(tasks, nextTaskId, (sid: int) => Lookup(s, sid));
      var r := SortBy(rows, TaskCreated, true);
      assert forall row :: row in r <==> row in rows;
      DistinctIds(rows, r, (row: TaskRow) => row.id);
      r
    }

    /** `get_tasks_by_seed`: exactly the tasks of seed `seedId`, without the join, newest `created_at` first. */
    function TasksBySeed(seedId: int): (r: seq<TaskRow>)
      reads this
      requires Valid()
      ensures SortedBy(r, TaskCreated, true)
      ensures forall row :: row in r <==> row.id in tasks && tasks[row.id].seedId == seedId && row == TaskToRow(row.id, tasks[row.id], None)
      ensures forall i, j :: 0 <= i < j < |r| ==> r[i].id != r[j].id
    {
      var rows := TaskRows(tasks, nextTaskId, (sid: int) => None);
      var mine := Keep(rows, (row: TaskRow) => row.seedId == seedId);
      var r := SortBy(mine, TaskCreated, true);
      assert forall row :: row in r <==> row in mine;
      assert forall row :: row in mine <==> row in rows && row.seedId == seedId;
      DistinctIds(rows, r, (row: TaskRow) => row.id);
      r
    }

    /** The id of seed `seedId`'s inventory record, if it has one. */
    function FindInventory(seedId: int): (r: Option<int>)
      reads this
      requires Valid()
      ensures r.Some? ==> r.value in inventory && inventory[r.value].seedId == seedId
      ensures r.None? ==> forall k :: k in inventory ==> inventory[k].seedId != seedId
    {
      FindInventoryIn(inventory, seedId, 1, nextInventoryId)
    }

    /** Seed `seedId`'s inventory record as `get_or_create_inventory` returns it, if there is one. */
    function CurrentInventory(seedId: int): (r: Option<InventoryRow>)
      reads this
      requires Valid()
      ensures r.Some? <==> FindInventory(seedId).Some?
      ensures r.Some? ==> r.value.id in inventory && inventory[r.value.id].seedId == seedId
    {
      match FindInventory(seedId)
      case None => None
      case Some(k) => Some(InventoryToRow(k, inventory[k], Lookup(seeds, seedId)))
    }

    /**
     * `get_or_create_inventory`: the existing record, unchanged, when there is one;
     * otherwise a single default record is inserted, which needs the seed to exist.
     * Either way what it returns is then the seed's current record.
     */
    method GetOrCreateInventory(seedId: int, now: string) returns (r: Option<InventoryRow>)
      requires Valid()
      modifies this
      ensures Valid()
      ensures old(CurrentInventory(seedId)).Some? ==> r == old(CurrentInventory(seedId)) && inventory == old(inventory)
      ensures old(CurrentInventory(seedId)).None? && seedId in old(seeds) ==>
        r.Some? && r.value.id !in old(inventory)
        && inventory == old(inventory)[r.value.id := DefaultInventory(seedId, now)]
      ensures old(CurrentInventory(seedId)).None? && seedId !in old(seeds) ==> r.None? && inventory == old(inventory)
      ensures r.Some? ==> r == CurrentInventory(seedId)
      ensures seeds == old(seeds) && tasks == old(tasks) && adjustments == old(adjustments)
    {
      r := CurrentInventory(seedId);
      if r.Some? {
        return;
      }
      if seedId !in seeds {
        return None;
      }
      var k := nextInventoryId;
      assert forall j :: j in inventory ==> inventory[j].seedId != seedId;
      inventory := inventory[k := DefaultInventory(seedId, now)];
      nextInventoryId := nextInventoryId + 1;
      assert forall j :: j in inventory && j != k ==> inventory[j].seedId != seedId;
      assert inventory[k].seedId == seedId && 1 <= k < nextInventoryId;
      assert FindInventory(seedId) == Some(k);
      r := CurrentInventory(seedId);
    }

    /** `update_inventory`, keyed by seed: fails on an empty patch or when the seed has no record; otherwise patches it and stamps it. */
    method UpdateInventory(seedId: int, updates: InventoryPatch, now: string) returns (ok: bool)
      requires Valid()
      modifies this
      ensures Valid()
      ensures ok <==> !updates.IsEmpty() && old(FindInventory(seedId)).Some?
      ensures ok ==> var k := old(FindInventory(seedId)).value;
        inventory == old(inventory)[k := ApplyInventoryPatch(old(inventory)[k], updates, now)]
      ensures !ok ==> inventory == old(inventory)
      ensures seeds == old(seeds) && tasks == old(tasks) && adjustments == old(adjustments)
    {
      if updates.IsEmpty() {
        return false;
      }
      var found := FindInventory(seedId);
      if found.None? {
        return false;
      }
      var k := found.value;
      inventory := inventory[k := ApplyInventoryPatch(inventory[k], updates, now)];
      ok := true;
    }

    /** `get_all_inventory`: every inventory record joined with its seed, by seed name. */
    function AllInventory(): (r: seq<InventoryRow>)
      reads this
      requires Valid()
      ensures SortedBy(r, InventorySeedName, false)
      ensures forall row :: row in r <==> row.id in inventory && row == InventoryToRow(row.id, inventory[row.id], Lookup(seeds, inventory[row.id].seedId))
      ensures forall i, j :: 0 <= i < j < |r| ==> r[i].id != r[j].id
    {
      var rows := InventoryRows(inventory, nextInventoryId, seeds);
      var r := SortBy(rows, InventorySeedName, false);
      assert forall row :: row in r <==> row in rows;
      DistinctIds(rows, r, (row: InventoryRow) => row.id);
      r
    }

    /** `create_inventory_adjustment`: a fresh id holding the adjustment; the seed reference must exist (foreign key). */
    method CreateAdjustment(adjustment: Adjustment, now: string) returns (id: Option<int>)
      requires Valid()
      modifies this
      ensures Valid()
      ensures id.Some? <==> adjustment.seedId in old(seeds)
      ensures id.Some? ==> (id.value !in old(adjustments)
        && adjustments == old(adjustments)[id.value := StoredAdjustment(adjustment, now)])
      ensures id.None? ==> adjustments == old(adjustments)
      ensures seeds == old(seeds) && tasks == old(tasks) && inventory == old(inventory)
    {
      if adjustment.seedId !in seeds {
        return None;
      }
      var k := nextAdjustmentId;
      adjustments := adjustments[k := StoredAdjustment(adjustment, now)];
      nextAdjustmentId := nextAdjustmentId + 1;
      id := Some(k);
    }

    /** `get_inventory_adjustments`: filtered by seed only when the seed id is truthy, newest `adjusted_at` first. */
    function Adjustments(seedId: Option<int>): (r: seq<AdjustmentRow>)
      reads this
      requires Valid()
      ensures SortedBy(r, AdjustmentTime, true)
      ensures forall row :: row in r <==>
        row.id in adjustments && (FilterGiven(seedId) ==> adjustments[row.id].seedId == seedId.value)
        && row == AdjustmentToRow(row.id, adjustments[row.id], Lookup(seeds, adjustments[row.id].seedId))
      ensures forall i, j :: 0 <= i < j < |r| ==> r[i].id != r[j].id
    {
      var rows := AdjustmentRows(adjustments, nextAdjustmentId, seeds);
      var kept := if FilterGiven(seedId) then Keep(rows, (row: AdjustmentRow) => row.seedId == seedId.value) else rows;
      var r := SortBy(kept, AdjustmentTime, true);
      assert forall row :: row in r <==> row in kept;
      DistinctIds(rows, r, (row: AdjustmentRow) => row.id);
      r
    }

    /** `get_all_seeds`: every seed exactly as stored, newest `created_at` first. */
    function AllSeeds(): (r: seq<SeedRow>)
      reads this
      requires Valid()
      ensures SortedBy(r, SeedCreated, true)
      ensures forall row :: row in r <==> row.id in seeds && row.seed == seeds[row.id]
      ensures forall i, j :: 0 <= i < j < |r| ==> r[i].id != r[j].id
    {
      var rows := SeedRows(seeds, nextSeedId);
      var r := SortBy(rows, SeedCreated, true);
      assert forall row :: row in r <==> row in rows;
      DistinctIds(rows, r, (row: SeedRow) => row.id);
      r
    }
  }

  /** Reading a seed back by the id `create_seed` returned gives the stored form of the seed that was given. */
  method CreateThenGetSeed(st: Store, seed: Seed, now: string) returns (id: int, got: Option<SeedRow>)
    requires st.Valid()
    modifies st
    ensures st.Valid()
    ensures id !in old(st.seeds)
    ensures got == Some(SeedRow(id, StoredSeed(seed, now)))
  {
    id := st.CreateSeed(seed, now);
    got := st.SeedById(id);
  }

  /** Two get-or-create calls in a row return the same record; only the first can insert one, and only a default one. */
  method GetOrCreateTwice(st: Store, seedId: int, now1: string, now2: string)
    returns (first: Option<InventoryRow>, second: Option<InventoryRow>)
    requires st.Valid()
    modifies st
    ensures st.Valid()
    ensures second == first
    ensures first.Some? <==> seedId in old(st.seeds)
    ensures old(st.CurrentInventory(seedId)).Some? || seedId !in old(st.seeds) ==> st.inventory == old(st.inventory)
    ensures old(st.CurrentInventory(seedId)).None? && seedId in old(st.seeds) ==>
      first.Some? && first.value.id !in old(st.inventory)
      && st.inventory == old(st.inventory)[first.value.id := DefaultInventory(seedId, now1)]
    ensures st.seeds == old(st.seeds) && st.tasks == old(st.tasks) && st.adjustments == old(st.adjustments)
  {
    first := st.GetOrCreateInventory(seedId, now1);
    ghost var between := st.inventory;
    second := st.GetOrCreateInventory(seedId, now2);
    assert st.inventory == between;
  }
}
