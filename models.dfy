/**
 * The four records of the seed library (seeds, tasks, inventory, inventory
 * adjustments), the task vocabularies and the task-status normalisation of
 * app/models.py. Timestamps are the ISO strings the source stores; "now" is a
 * parameter wherever the source reads the clock.
 */
module Models {
  import opened Wrappers
  import opened Text

  // TaskType
  const Pack := "Pack"
  const Catalog := "Catalog"
  const Reorder := "Reorder"

  // TaskStatus; PENDING is an alias of TODO, so both name the one value "To Do"
  const ToDo := "To Do"
  const Pending := ToDo
  const InProgress := "In Progress"
  const Done := "Done"
  const Cancelled := "Cancelled"

  // TaskPriority
  const Low := "Low"
  const Medium := "Medium"
  const High := "High"

  /** Python truthiness of an optional string: None and "" are false. */
  predicate Falsy(v: Option<string>) {
    v.None? || v.value == ""
  }

  /** `value or now`. */
  function OrNow(v: Option<string>, now: string): string {
    if Falsy(v) then now else v.value
  }

  /** The statuses the application knows, in their canonical spelling. */
  predicate IsCanonicalStatus(s: string) {
    s == ToDo || s == InProgress || s == Done || s == Cancelled
  }

  /** The lookup table of `TaskStatus.normalize`: a lower-cased spelling and the canonical value it maps to. */
  function StatusAlias(lower: string): (r: Option<string>)
    ensures r.Some? ==> IsCanonicalStatus(r.value)
  {
    if lower == "pending" || lower == "to do" then Some(ToDo)
    else if lower == "in progress" then Some(InProgress)
    else if lower == "done" then Some(Done)
    else if lower == "cancelled" then Some(Cancelled)
    else None
  }

  /**
   * `TaskStatus.normalize`: None or "" become "To Do"; otherwise the value is
   * stripped, looked up lower-cased among the aliases, and returned stripped
   * (case kept) when it is not one of them.
   */
  function Normalize(value: Option<string>): (r: string)
    ensures Falsy(value) ==> r == ToDo
    ensures !Falsy(value) ==> IsCanonicalStatus(r) || r == Strip(value.value)
  {
    if Falsy(value) then ToDo
    else
      var normalized := Strip(value.value);
      var lower := Lower(normalized);
      StatusAlias(lower).GetOr(normalized)
  }

  lemma LowerOfCanonical()
    ensures Lower(ToDo) == "to do" && Lower(InProgress) == "in progress"
    ensures Lower(Done) == "done" && Lower(Cancelled) == "cancelled"
  {
    assert Lower(ToDo) == "to do" by {
      assert forall i :: 0 <= i < 5 ==> Lower(ToDo)[i] == "to do"[i];
    }
    assert Lower(InProgress) == "in progress" by {
      assert forall i :: 0 <= i < 11 ==> Lower(InProgress)[i] == "in progress"[i];
    }
    assert Lower(Done) == "done" by {
      assert forall i :: 0 <= i < 4 ==> Lower(Done)[i] == "done"[i];
    }
    assert Lower(Cancelled) == "cancelled" by {
      assert forall i :: 0 <= i < 9 ==> Lower(Cancelled)[i] == "cancelled"[i];
    }
  }

  /** A canonical status is its own normal form. */
  lemma NormalizeFixesCanonical(c: string)
    requires IsCanonicalStatus(c)
    ensures Normalize(Some(c)) == c
  {
    assert Trimmed(c);
    StripOfTrimmed(c);
    LowerOfCanonical();
  }

  /** An absent or empty status is "To Do"; the PENDING alias and TODO normalise to the same value. */
  lemma NormalizeEmptyAndAlias()
    ensures Normalize(None) == ToDo && Normalize(Some("")) == ToDo
    ensures Normalize(Some(Pending)) == Normalize(Some(ToDo)) == ToDo
  {
    NormalizeFixesCanonical(ToDo);
  }

  /** "pending" in any letter case, with any white space around it, normalises to "To Do". */
  lemma NormalizePending(before: string, word: string, after: string)
    requires AllSpace(before) && AllSpace(after)
    requires Lower(word) == "pending"
    ensures Normalize(Some(before + word + after)) == ToDo
  {
    assert LowerChar(word[0]) == 'p' && LowerChar(word[6]) == 'g';
    assert Trimmed(word);
    StripPadded(before, word, after);
  }

  /** Normalising a non-empty value: look up its stripped, lower-cased form, or keep it stripped. */
  lemma NormalizeText(value: string)
    requires value != ""
    ensures Normalize(Some(value)) == StatusAlias(Lower(Strip(value))).GetOr(Strip(value))
  {
  }

  /** The lower-cased spelling of each canonical status is in the lookup table, mapped to that status. */
  lemma StatusAliasOfCanonical(c: string)
    requires IsCanonicalStatus(c)
    ensures StatusAlias(Lower(c)) == Some(c)
  {
    LowerOfCanonical();
  }

  /** Each canonical status, matched without regard to case or surrounding white space, maps to its canonical spelling. */
  lemma NormalizeCanonical(value: string, canonical: string)
    requires IsCanonicalStatus(canonical)
    requires Lower(Strip(value)) == Lower(canonical)
    ensures Normalize(Some(value)) == canonical
  {
    var s := Strip(value);
    var lower := Lower(s);
    StatusAliasOfCanonical(canonical);
    assert StatusAlias(lower) == Some(canonical);
    assert value != "" by {
      assert |lower| == |s| <= |value|;
      assert |Lower(canonical)| == |canonical| > 0;
    }
    NormalizeText(value);
  }

  /** A value that is no alias comes back stripped, its letter case untouched. */
  lemma NormalizeUnrecognised(value: string)
    requires Strip(value) != ""
    requires StatusAlias(Lower(Strip(value))).None?
    ensures Normalize(Some(value)) == Strip(value)
  {
  }

  /** Normalising twice is normalising once, for every value that does not strip to nothing. */
  lemma NormalizeIdempotent(value: string)
    requires Strip(value) != ""
    ensures Normalize(Some(Normalize(Some(value)))) == Normalize(Some(value))
  {
    var r := Normalize(Some(value));
    if IsCanonicalStatus(r) {
      NormalizeFixesCanonical(r);
    } else {
      var s := Strip(value);
      assert StatusAlias(Lower(s)).None?;
      assert r == s;
      StripOfTrimmed(s);
      NormalizeUnrecognised(r);
    }
  }

  /** The edge case: white space alone normalises to "", and "" normalises to "To Do", so normalise is not idempotent there. */
  lemma NormalizeWhitespaceOnly(value: string)
    requires value != "" && AllSpace(value)
    ensures Normalize(Some(value)) == ""
    ensures Normalize(Some(Normalize(Some(value)))) == ToDo
  {
    StripEmptyIffAllSpace(value);
    assert Lower("") == "";
  }

  datatype Seed = Seed(
    seedType: string, name: string, packetsMade: int, seedSource: string,
    dateOrdered: Option<string>, dateFinished: Option<string>,
    dateCataloged: Option<string>, dateRanOut: Option<string>,
    amountText: string, createdAt: string, updatedAt: string)

  datatype Task = Task(
    seedId: int, taskType: string, status: string, priority: string,
    dueDate: Option<string>, completedAt: Option<string>, description: string,
    createdAt: string, updatedAt: string)

  datatype Inventory = Inventory(
    seedId: int, currentAmount: string, buyMore: bool, extra: bool,
    notes: string, lastUpdated: string)

  datatype Adjustment = Adjustment(
    seedId: int, adjustmentType: string, amountChange: string, reason: string,
    adjustedAt: string)

  /** `Seed(...)`: every column as given, the two timestamps defaulted to now. */
  function NewSeed(seedType: string, name: string, packetsMade: int, seedSource: string,
                   dateOrdered: Option<string>, dateFinished: Option<string>,
                   dateCataloged: Option<string>, dateRanOut: Option<string>,
                   amountText: string, createdAt: Option<string>, updatedAt: Option<string>,
                   now: string): Seed
  {
    Seed(seedType, name, packetsMade, seedSource, dateOrdered, dateFinished, dateCataloged,
         dateRanOut, amountText, OrNow(createdAt, now), OrNow(updatedAt, now))
  }

  /** `Task(...)`: the status normalised, an empty priority made "Medium", the timestamps defaulted to now. */
  function NewTask(seedId: int, taskType: string, status: Option<string>, priority: Option<string>,
                   dueDate: Option<string>, completedAt: Option<string>, description: string,
                   createdAt: Option<string>, updatedAt: Option<string>, now: string): Task
  {
    Task(seedId, taskType, Normalize(status), if Falsy(priority) then Medium else priority.value,
         dueDate, completedAt, description, OrNow(createdAt, now), OrNow(updatedAt, now))
  }

  /** `Inventory(...)`: `last_updated` defaulted to now. */
  function NewInventory(seedId: int, currentAmount: string, buyMore: bool, extra: bool,
                        notes: string, lastUpdated: Option<string>, now: string): Inventory
  {
    Inventory(seedId, currentAmount, buyMore, extra, notes, OrNow(lastUpdated, now))
  }

  /** The record `Inventory(seed_id=...)` builds from its defaults: no amount, both flags off, no notes. */
  function DefaultInventory(seedId: int, now: string): Inventory {
    NewInventory(seedId, "", false, false, "", None, now)
  }

  /** `InventoryAdjustment(...)`: `adjusted_at` defaulted to now. */
  function NewAdjustment(seedId: int, adjustmentType: string, amountChange: string, reason: string,
                         adjustedAt: Option<string>, now: string): Adjustment
  {
    Adjustment(seedId, adjustmentType, amountChange, reason, OrNow(adjustedAt, now))
  }

  /** A timestamp a constructor stores is the supplied one when that is non-empty and now otherwise; never empty when now is not. */
  predicate Stamped(stored: string, supplied: Option<string>, now: string) {
    (!Falsy(supplied) ==> stored == supplied.value)
    && (Falsy(supplied) ==> stored == now)
    && (now != "" ==> stored != "")
  }

  /** `Seed(...)` keeps every given column and fills in only the two timestamps. */
  lemma NewSeedKeepsColumns(seedType: string, name: string, packetsMade: int, seedSource: string,
                            d1: Option<string>, d2: Option<string>, d3: Option<string>, d4: Option<string>,
                            amountText: string, created: Option<string>, updated: Option<string>, now: string)
    ensures var s := NewSeed(seedType, name, packetsMade, seedSource, d1, d2, d3, d4, amountText, created, updated, now);
      Stamped(s.createdAt, created, now) && Stamped(s.updatedAt, updated, now)
      && s.seedType == seedType && s.name == name && s.packetsMade == packetsMade && s.seedSource == seedSource
      && s.dateOrdered == d1 && s.dateFinished == d2 && s.dateCataloged == d3 && s.dateRanOut == d4
      && s.amountText == amountText
  {
  }

  /** `Task(...)` keeps the given columns, normalises the status and makes an empty priority Medium. */
  lemma NewTaskDefaults(seedId: int, taskType: string, status: Option<string>, priority: Option<string>,
                        dueDate: Option<string>, completedAt: Option<string>, description: string,
                        created: Option<string>, updated: Option<string>, now: string)
    ensures var t := NewTask(seedId, taskType, status, priority, dueDate, completedAt, description, created, updated, now);
      Stamped(t.createdAt, created, now) && Stamped(t.updatedAt, updated, now)
      && t.seedId == seedId && t.taskType == taskType && t.description == description
      && t.status == Normalize(status)
      && (Falsy(priority) ==> t.priority == Medium)
      && (!Falsy(priority) ==> t.priority == priority.value)
      && t.dueDate == dueDate && t.completedAt == completedAt
  {
  }

  /** `Inventory(...)` keeps the given columns; built from its defaults it has no amount, no notes and both flags off. */
  lemma NewInventoryDefaults(seedId: int, currentAmount: string, buyMore: bool, extra: bool, notes: string,
                             updated: Option<string>, now: string)
    ensures var i := NewInventory(seedId, currentAmount, buyMore, extra, notes, updated, now);
      Stamped(i.lastUpdated, updated, now)
      && i.seedId == seedId && i.currentAmount == currentAmount && i.buyMore == buyMore && i.extra == extra
      && i.notes == notes
    ensures var i := DefaultInventory(seedId, now);
      i.seedId == seedId && i.currentAmount == "" && !i.buyMore && !i.extra && i.notes == "" && i.lastUpdated == now
  {
  }

  /** `InventoryAdjustment(...)` keeps every given column and fills in only `adjusted_at`. */
  lemma NewAdjustmentKeepsColumns(seedId: int, adjustmentType: string, amountChange: string, reason: string,
                                  created: Option<string>, now: string)
    ensures var a := NewAdjustment(seedId, adjustmentType, amountChange, reason, created, now);
      Stamped(a.adjustedAt, created, now)
      && a.seedId == seedId && a.adjustmentType == adjustmentType && a.amountChange == amountChange
      && a.reason == reason
  {
  }

  /** A task built from a status that does not strip to nothing holds a status normalise leaves alone. */
  lemma NewTaskStatusIsStable(seedId: int, taskType: string, status: string, priority: Option<string>,
                              dueDate: Option<string>, completedAt: Option<string>, description: string,
                              created: Option<string>, updated: Option<string>, now: string)
    requires Strip(status) != ""
    ensures var t := NewTask(seedId, taskType, Some(status), priority, dueDate, completedAt, description, created, updated, now);
      Normalize(Some(t.status)) == t.status
  {
    NormalizeIdempotent(status);
  }
}
