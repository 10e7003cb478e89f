/**
 * app/services/import_service.py, first half: checking a column mapping
 * against the spreadsheet's header before any row is read. Every problem is
 * collected; the mapping is usable only when there are none.
 */
module ImportMapping {
  import opened Wrappers
  import opened Models

  const RequiredFields: seq<string> := ["Type", "Name"]
  const SupportedFields: seq<string> := ["Type", "Name", "packets_made", "seed_source", "date_ordered",
                                         "date_finished", "date_cataloged", "date_ran_out", "amount_text"]

  /**
   * A column mapping as the dictionary passes it, in insertion order: target
   * field to source column, None or "" when the field is not mapped.
   */
  type Mapping = seq<(string, Option<string>)>

  /** `mapping.get(field)`: the value of the field's entry, None when there is none. */
  function Get(m: Mapping, field: string): (r: Option<string>)
    ensures (exists i :: 0 <= i < |m| && m[i] == (field, r)) || (r.None? && forall i :: 0 <= i < |m| ==> m[i].0 != field)
  {
    if m == [] then None
    else if m[0].0 == field then m[0].1
    else
      var r := Get(m[1..], field);
      assert forall i :: 0 < i < |m| ==> m[i] == m[1..][i - 1];
      r
  }

  datatype MappingError =
    | NoMappings
    | MissingRequired(field: string)
    | DuplicateColumn(column: string)
    | ColumnNotFound(column: string, field: string)

  /** The message each problem is reported with. */
  function Message(e: MappingError): string {
    match e
    case NoMappings => "No column mappings were provided."
    case MissingRequired(f) => "Mapping for required field '" + f + "' is missing."
    case DuplicateColumn(c) => "Column '" + c + "' is mapped to multiple fields. Please choose unique columns."
    case ColumnNotFound(c, f) => "Column '" + c + "' was not found for '" + f + "'."
  }

  function Messages(errs: seq<MappingError>): (r: seq<string>)
    ensures |r| == |errs| && forall i :: 0 <= i < |errs| ==> r[i] == Message(errs[i])
  {
    seq(|errs|, i requires 0 <= i < |errs| => Message(errs[i]))
  }

  /** The mapped source columns, in order: the non-empty values. */
  function ProvidedColumns(m: Mapping): (r: seq<string>)
    ensures forall c :: c in r <==> c != "" && exists i :: 0 <= i < |m| && m[i].1 == Some(c)
  {
    if m == [] then []
    else
      var rest := ProvidedColumns(m[1..]);
      assert forall i :: 0 < i < |m| ==> m[i] == m[1..][i - 1];
      (if !Falsy(m[0].1) then [m[0].1.value] else []) + rest
  }

  function Occurrences(s: seq<string>, x: string): nat {
    if s == [] then 0 else (if s[0] == x then 1 else 0) + Occurrences(s[1..], x)
  }

  lemma {:induction false} OccursIffIn(s: seq<string>, x: string)
    ensures Occurrences(s, x) > 0 <==> x in s
  {
    if s != [] {
      OccursIffIn(s[1..], x);
    }
  }

  /** The columns of `rest` that occur more than once in `all`, each once. */
  function DuplicatesIn(all: seq<string>, rest: seq<string>): (r: seq<string>)
    ensures forall c :: c in r <==> c in rest && Occurrences(all, c) > 1
    ensures forall i, j :: 0 <= i < j < |r| ==> r[i] != r[j]
  {
    if rest == [] then []
    else
      var tail := DuplicatesIn(all, rest[1..]);
      assert forall c :: c in rest <==> c == rest[0] || c in rest[1..];
      (if Occurrences(all, rest[0]) > 1 && rest[0] !in rest[1..] then [rest[0]] else []) + tail
  }

  /** The set of columns mapped more than once, in some order. */
  function Duplicates(cols: seq<string>): (r: seq<string>)
    ensures forall c :: c in r <==> Occurrences(cols, c) > 1
    ensures forall i, j :: 0 <= i < j < |r| ==> r[i] != r[j]
  {
    forall c | Occurrences(cols, c) > 1 ensures c in cols {
      OccursIffIn(cols, c);
    }
    DuplicatesIn(cols, cols)
  }

  /** One error for each field of `fields` the mapping leaves unmapped, in order. */
  function MissingErrors(m: Mapping, fields: seq<string>): (r: seq<MappingError>)
    ensures forall e :: e in r ==> e.MissingRequired? && e.field in fields && Falsy(Get(m, e.field))
    ensures forall i :: 0 <= i < |fields| && Falsy(Get(m, fields[i])) ==> MissingRequired(fields[i]) in r
  {
    if fields == [] then []
    else
      var init := fields[..|fields| - 1];
      var f := fields[|fields| - 1];
      assert forall i :: 0 <= i < |fields| - 1 ==> fields[i] == init[i];
      MissingErrors(m, init) + (if Falsy(Get(m, f)) then [MissingRequired(f)] else [])
  }

  function DuplicateErrors(dups: seq<string>): (r: seq<MappingError>)
    ensures |r| == |dups| && forall i :: 0 <= i < |dups| ==> r[i] == DuplicateColumn(dups[i])
  {
    seq(|dups|, i requires 0 <= i < |dups| => DuplicateColumn(dups[i]))
  }

  lemma DuplicateErrorsAppend(dups: seq<string>, c: string)
    ensures DuplicateErrors(dups + [c]) == DuplicateErrors(dups) + [DuplicateColumn(c)]
  {
    var l, r := DuplicateErrors(dups + [c]), DuplicateErrors(dups) + [DuplicateColumn(c)];
    assert |l| == |r|;
    forall i | 0 <= i < |l| ensures l[i] == r[i] {
      if i < |dups| {
        assert (dups + [c])[i] == dups[i];
      }
    }
  }

  /** One error for each mapped column the header lacks, in mapping order. */
  function NotFoundErrors(m: Mapping, header: seq<string>): (r: seq<MappingError>)
    ensures forall e :: e in r ==>
      e.ColumnNotFound? && e.column != "" && e.column !in header
      && exists i :: 0 <= i < |m| && m[i] == (e.field, Some(e.column))
    ensures forall i :: 0 <= i < |m| && !Falsy(m[i].1) && m[i].1.value !in header ==>
      ColumnNotFound(m[i].1.value, m[i].0) in r
  {
    if m == [] then []
    else
      var init := m[..|m| - 1];
      var last := m[|m| - 1];
      assert forall i :: 0 <= i < |m| - 1 ==> m[i] == init[i];
      NotFoundErrors(init, header)
      + (if !Falsy(last.1) && last.1.value !in header then [ColumnNotFound(last.1.value, last.0)] else [])
  }

  /** Every problem with a mapping, in the order they are reported. */
  function MappingErrors(m: Mapping, header: seq<string>): seq<MappingError> {
    (if |m| == 0 then [NoMappings] else [])
    + MissingErrors(m, RequiredFields)
    + DuplicateErrors(Duplicates(ProvidedColumns(m)))
    + NotFoundErrors(m, header)
  }

  /**
   * A usable mapping, stated independently: it has entries, maps both required
   * fields, never maps two fields to one column, and names only header columns.
   */
  predicate Acceptable(m: Mapping, header: seq<string>) {
    && |m| > 0
    && !Falsy(Get(m, "Type")) && !Falsy(Get(m, "Name"))
    && (forall i, j :: 0 <= i < j < |m| && !Falsy(m[i].1) ==> m[i].1 != m[j].1)
    && (forall i :: 0 <= i < |m| && !Falsy(m[i].1) ==> m[i].1.value in header)
  }

  /** The validation steps of `import_seeds_from_excel`, appending each problem as it is found. */
  method ValidateMapping(mapping: Mapping, header: seq<string>) returns (mappingErrors: seq<MappingError>)
    ensures mappingErrors == MappingErrors(mapping, header)
  {
    mappingErrors := [];
    if |mapping| == 0 {
      mappingErrors := mappingErrors + [NoMappings];
    }
    mappingErrors := CheckRequiredFields(mapping, mappingErrors);
    mappingErrors := CheckDuplicates(mapping, mappingErrors);
    mappingErrors := CheckColumnsExist(mapping, header, mappingErrors);
  }

  /** The second validation step: each required field left unmapped is appended to `errs`. */
  method CheckRequiredFields(mapping: Mapping, errs: seq<MappingError>) returns (mappingErrors: seq<MappingError>)
    ensures mappingErrors == errs + MissingErrors(mapping, RequiredFields)
  {
    mappingErrors := errs;
    var k := 0;
    while k < |RequiredFields|
      invariant 0 <= k <= |RequiredFields|
      invariant mappingErrors == errs + MissingErrors(mapping, RequiredFields[..k])
    {
      assert RequiredFields[..k + 1][..k] == RequiredFields[..k];
      var requiredField := RequiredFields[k];
      if Falsy(Get(mapping, requiredField)) {
        mappingErrors := mappingErrors + [MissingRequired(requiredField)];
      }
      k := k + 1;
    }
    assert RequiredFields[..k] == RequiredFields;
  }

  /** The third validation step: each column mapped more than once is appended to `errs`. */
  method CheckDuplicates(mapping: Mapping, errs: seq<MappingError>) returns (mappingErrors: seq<MappingError>)
    ensures mappingErrors == errs + DuplicateErrors(Duplicates(ProvidedColumns(mapping)))
  {
    var providedColumns := ProvidedColumns(mapping);
    var duplicates := Duplicates(providedColumns);
    mappingErrors := AppendDuplicateErrors(errs, duplicates);
  }

  /** The loop of the duplicate check: one error per duplicated column, in order. */
  method AppendDuplicateErrors(errs: seq<MappingError>, duplicates: seq<string>) returns (mappingErrors: seq<MappingError>)
    ensures mappingErrors == errs + DuplicateErrors(duplicates)
  {
    mappingErrors := errs;
    var d := 0;
    while d < |duplicates|
      invariant 0 <= d <= |duplicates|
      invariant mappingErrors == errs + DuplicateErrors(duplicates[..d])
    {
      assert duplicates[..d + 1] == duplicates[..d] + [duplicates[d]];
      DuplicateErrorsAppend(duplicates[..d], duplicates[d]);
      mappingErrors := mappingErrors + [DuplicateColumn(duplicates[d])];
      d := d + 1;
    }
    assert duplicates[..d] == duplicates;
  }

  /** The last validation step: each mapped column the header lacks is appended to `errs`. */
  method CheckColumnsExist(mapping: Mapping, header: seq<string>, errs: seq<MappingError>) returns (mappingErrors: seq<MappingError>)
    ensures mappingErrors == errs + NotFoundErrors(mapping, header)
  {
    mappingErrors := errs;
    ghost var base := errs;
    var t := 0;
    assert NotFoundErrors(mapping[..t], header) == [];
    while t < |mapping|
      invariant 0 <= t <= |mapping|
      invariant mappingErrors == base + NotFoundErrors(mapping[..t], header)
    {
      assert mapping[..t + 1][..t] == mapping[..t];
      var targetField := mapping[t].0;
      var sourceColumn := mapping[t].1;
      assert NotFoundErrors(mapping[..t + 1], header) == NotFoundErrors(mapping[..t], header)
        + (if !Falsy(sourceColumn) && sourceColumn.value !in header then [ColumnNotFound(sourceColumn.value, targetField)] else []);
      if !Falsy(sourceColumn) && sourceColumn.value !in header {
        mappingErrors := mappingErrors + [ColumnNotFound(sourceColumn.value, targetField)];
      }
      t := t + 1;
    }
    assert mapping[..t] == mapping;
  }

  /** "No column mappings were provided." is reported exactly for an empty mapping. */
  lemma NoMappingsIff(m: Mapping, header: seq<string>)
    ensures NoMappings in MappingErrors(m, header) <==> |m| == 0
  {
  }

  /** A required field is reported missing exactly when its mapping is absent, None or empty. */
  lemma MissingRequiredIff(m: Mapping, header: seq<string>, field: string)
    ensures MissingRequired(field) in MappingErrors(m, header) <==> field in RequiredFields && Falsy(Get(m, field))
  {
    if field in RequiredFields && Falsy(Get(m, field)) {
      var i :| 0 <= i < |RequiredFields| && RequiredFields[i] == field;
      assert MissingRequired(field) in MissingErrors(m, RequiredFields);
    }
  }

  /** A column mapped by two or more fields. */
  predicate MappedTwice(m: Mapping, c: string) {
    c != "" && exists i, j :: 0 <= i < j < |m| && m[i].1 == Some(c) && m[j].1 == Some(c)
  }

  /** The first mapping contributes one occurrence of its column when it names one. */
  lemma OccurrencesHead(m: Mapping, c: string)
    requires m != []
    ensures Occurrences(ProvidedColumns(m), c)
      == (if m[0].1 == Some(c) && c != "" then 1 else 0) + Occurrences(ProvidedColumns(m[1..]), c)
  {
    var rest := m[1..];
    var head := if !Falsy(m[0].1) then [m[0].1.value] else [];
    assert ProvidedColumns(m) == head + ProvidedColumns(rest);
    if head == [] {
      assert ProvidedColumns(m) == ProvidedColumns(rest);
    } else {
      assert ProvidedColumns(m)[1..] == ProvidedColumns(rest);
    }
  }

  /** A column is mapped twice when the first mapping names it and a later one too, or when two later ones do. */
  lemma MappedTwiceHead(m: Mapping, c: string)
    requires m != []
    ensures MappedTwice(m, c)
      <==> (m[0].1 == Some(c) && c != "" && c in ProvidedColumns(m[1..])) || MappedTwice(m[1..], c)
  {
    var rest := m[1..];
    if MappedTwice(m, c) {
      var i, j :| 0 <= i < j < |m| && m[i].1 == Some(c) && m[j].1 == Some(c);
      if i == 0 {
        assert rest[j - 1].1 == Some(c);
      } else {
        assert rest[i - 1].1 == Some(c) && rest[j - 1].1 == Some(c);
      }
    }
    if m[0].1 == Some(c) && c != "" && c in ProvidedColumns(rest) {
      var j :| 0 <= j < |rest| && rest[j].1 == Some(c);
      assert m[j + 1].1 == Some(c);
    }
    if MappedTwice(rest, c) {
      var i, j :| 0 <= i < j < |rest| && rest[i].1 == Some(c) && rest[j].1 == Some(c);
      assert m[i + 1].1 == Some(c) && m[j + 1].1 == Some(c);
    }
  }

  lemma {:induction false} OccurrencesOfProvided(m: Mapping, c: string)
    ensures Occurrences(ProvidedColumns(m), c) > 1 <==> MappedTwice(m, c)
  {
    if m != [] {
      OccurrencesOfProvided(m[1..], c);
      OccursIffIn(ProvidedColumns(m[1..]), c);
      OccurrencesHead(m, c);
      MappedTwiceHead(m, c);
    }
  }

  /** A column mapped by two or more fields is reported, and only once. */
  lemma DuplicateColumnIff(m: Mapping, header: seq<string>, c: string)
    ensures DuplicateColumn(c) in MappingErrors(m, header) <==> MappedTwice(m, c)
    ensures var errs := MappingErrors(m, header);
      forall i, j :: 0 <= i < j < |errs| && errs[i].DuplicateColumn? ==> errs[i] != errs[j]
  {
    OccurrencesOfProvided(m, c);
    DuplicateReported(m, header, c);
    DuplicatesReportedOnce(m, header);
  }

  /** The parts of the error list around the duplicate reports report no duplicate. */
  lemma MappingErrorsParts(m: Mapping, header: seq<string>)
    ensures var front := (if |m| == 0 then [NoMappings] else []) + MissingErrors(m, RequiredFields);
      && MappingErrors(m, header) == front + DuplicateErrors(Duplicates(ProvidedColumns(m))) + NotFoundErrors(m, header)
      && (forall e :: e in front ==> !e.DuplicateColumn?)
      && (forall e :: e in NotFoundErrors(m, header) ==> !e.DuplicateColumn?)
  {
  }

  lemma DuplicateReported(m: Mapping, header: seq<string>, c: string)
    ensures DuplicateColumn(c) in MappingErrors(m, header) <==> c in Duplicates(ProvidedColumns(m))
  {
    var front := (if |m| == 0 then [NoMappings] else []) + MissingErrors(m, RequiredFields);
    var dupCols := Duplicates(ProvidedColumns(m));
    var dups := DuplicateErrors(dupCols);
    MappingErrorsParts(m, header);
    if c in dupCols {
      var k :| 0 <= k < |dupCols| && dupCols[k] == c;
      assert dups[k] == DuplicateColumn(c);
    }
    if DuplicateColumn(c) in dups {
      var k :| 0 <= k < |dups| && dups[k] == DuplicateColumn(c);
      assert dupCols[k] == c;
    }
  }

  lemma DuplicatesReportedOnce(m: Mapping, header: seq<string>)
    ensures var errs := MappingErrors(m, header);
      forall i, j :: 0 <= i < j < |errs| && errs[i].DuplicateColumn? ==> errs[i] != errs[j]
  {
    var errs := MappingErrors(m, header);
    var front := (if |m| == 0 then [NoMappings] else []) + MissingErrors(m, RequiredFields);
    var dupCols := Duplicates(ProvidedColumns(m));
    var back := NotFoundErrors(m, header);
    MappingErrorsParts(m, header);
    forall k | 0 <= k < |errs| && errs[k].DuplicateColumn?
      ensures |front| <= k < |front| + |dupCols| && errs[k] == DuplicateColumn(dupCols[k - |front|])
    {
      DuplicatesInMiddle(front, dupCols, back, k);
    }
  }

  /** In `front + dups + back` where only the middle part reports duplicates, a duplicate report sits in the middle. */
  lemma DuplicatesInMiddle(front: seq<MappingError>, dupCols: seq<string>, back: seq<MappingError>, k: int)
    requires forall e :: e in front ==> !e.DuplicateColumn?
    requires forall e :: e in back ==> !e.DuplicateColumn?
    requires 0 <= k < |front + DuplicateErrors(dupCols) + back|
    requires (front + DuplicateErrors(dupCols) + back)[k].DuplicateColumn?
    ensures |front| <= k < |front| + |dupCols|
    ensures (front + DuplicateErrors(dupCols) + back)[k] == DuplicateColumn(dupCols[k - |front|])
  {
  }

  /** A non-empty mapped column the header lacks is reported with the field that maps it. */
  lemma ColumnNotFoundIff(m: Mapping, header: seq<string>, c: string, field: string)
    ensures ColumnNotFound(c, field) in MappingErrors(m, header)
      <==> c != "" && c !in header && exists i :: 0 <= i < |m| && m[i] == (field, Some(c))
  {
    if c != "" && c !in header && exists i :: 0 <= i < |m| && m[i] == (field, Some(c)) {
      var i :| 0 <= i < |m| && m[i] == (field, Some(c));
      assert ColumnNotFound(m[i].1.value, m[i].0) in NotFoundErrors(m, header);
    }
  }

  /** The mapping passes validation exactly when it is acceptable. */
  lemma NoErrorsIffAcceptable(m: Mapping, header: seq<string>)
    ensures MappingErrors(m, header) == [] <==> Acceptable(m, header)
  {
    var errs := MappingErrors(m, header);
    if errs == [] {
      MissingRequiredIff(m, header, "Type");
      MissingRequiredIff(m, header, "Name");
      forall i, j | 0 <= i < j < |m| && !Falsy(m[i].1)
        ensures m[i].1 != m[j].1
      {
        if m[i].1 == m[j].1 {
          DuplicateColumnIff(m, header, m[i].1.value);
        }
      }
      forall i | 0 <= i < |m| && !Falsy(m[i].1)
        ensures m[i].1.value in header
      {
        ColumnNotFoundIff(m, header, m[i].1.value, m[i].0);
      }
    } else {
      var e := errs[0];
      assert e in errs;
      match e
      case NoMappings =>
        NoMappingsIff(m, header);
      case MissingRequired(f) =>
        MissingRequiredIff(m, header, f);
      case DuplicateColumn(c) =>
        DuplicateColumnIff(m, header, c);
      case ColumnNotFound(c, f) =>
        ColumnNotFoundIff(m, header, c, f);
    }
  }
}

/**
 * app/services/import_service.py, second half: turning each spreadsheet row
 * into a seed with its inventory record, one error message per failing row.
 */
module ImportService {
  import opened Wrappers
  import opened Text
  import opened Models
  import opened Database
  import opened ImportMapping

  /** A cell as the spreadsheet reader yields it: empty (NaN), text, or a whole number. */
  datatype Cell = Blank | Str(s: string) | Num(n: int)

  /** The header as read and the rows below it, each a sequence of cells in header order. */
  datatype Sheet = Sheet(header: seq<string>, rows: seq<seq<Cell>>)

  /** Python truthiness of a cell value: NaN is truthy, "" and 0 are not. */
  predicate CellTruthy(c: Cell) {
    match c
    case Blank => true
    case Str(s) => s != ""
    case Num(n) => n != 0
  }

  /** `str()` of a cell value. */
  function CellStr(c: Cell): string {
    match c
    case Blank => "nan"
    case Str(s) => s
    case Num(n) => IntToString(n)
  }

  /** `str(cell or '')`, where the cell is None for an unmapped field. */
  function TextOf(c: Option<Cell>): string {
    if c.Some? && CellTruthy(c.value) then CellStr(c.value) else ""
  }

  /** `pd.notna(cell)`: None and NaN are missing. */
  predicate NotNa(c: Option<Cell>) {
    c.Some? && !c.value.Blank?
  }

  /** `str(cell or '') if pd.notna(cell) else ''`. */
  function PlainText(c: Option<Cell>): string {
    if NotNa(c) then TextOf(c) else ""
  }

  /** `str(cell or '') if pd.notna(cell) else None`. */
  function DateText(c: Option<Cell>): Option<string> {
    if NotNa(c) then Some(TextOf(c)) else None
  }

  /**
   * `int(cell or 0) if pd.notna(cell) else 0`; `parseInt` stands for `int()`
   * on a string, None when it raises.
   */
  function IntOf(c: Option<Cell>, parseInt: string -> Option<int>): Result<int, string> {
    if !NotNa(c) then Ok(0)
    else match c.value
      case Num(n) => Ok(n)
      case Str(s) =>
        if s == "" then Ok(0)
        else if parseInt(s).Some? then Ok(parseInt(s).value)
        else Err("invalid literal for int() with base 10: '" + s + "'")
      case Blank => Ok(0)
  }

  /** The header with each name stripped, as `df.columns.str.strip()` leaves it. */
  function StripHeader(header: seq<string>): (r: seq<string>)
    ensures |r| == |header| && forall i :: 0 <= i < |header| ==> r[i] == Strip(header[i])
  {
    seq(|header|, i requires 0 <= i < |header| => Strip(header[i]))
  }

  /** The position of the first column with this name. */
  function ColumnIndex(header: seq<string>, column: string): (r: Option<nat>)
    ensures r.Some? ==> r.value < |header| && header[r.value] == column
    ensures r.None? ==> column !in header
  {
    if header == [] then None
    else if header[0] == column then Some(0)
    else match ColumnIndex(header[1..], column)
      case None => None
      case Some(i) => Some(i + 1)
  }

  /** `row.get(column)`: the row's cell under that column, None when there is none. */
  function CellAt(header: seq<string>, row: seq<Cell>, column: string): Option<Cell> {
    match ColumnIndex(header, column)
    case None => None
    case Some(i) => if i < |row| then Some(row[i]) else None
  }

  /** `get_cell(field)`: None for an unmapped field, otherwise the cell of its column. */
  function GetCell(m: Mapping, header: seq<string>, row: seq<Cell>, field: string): Option<Cell> {
    var column := Get(m, field);
    if Falsy(column) then None else CellAt(header, row, column.value)
  }

  /** The `Seed(...)` a row builds, or the message of the exception building it raises. */
  function RowToSeed(m: Mapping, header: seq<string>, row: seq<Cell>, parseInt: string -> Option<int>, now: string): Result<Seed, string> {
    match IntOf(GetCell(m, header, row, "packets_made"), parseInt)
    case Err(e) => Err(e)
    case Ok(packets) =>
      Ok(NewSeed(TextOf(GetCell(m, header, row, "Type")), TextOf(GetCell(m, header, row, "Name")), packets,
                 PlainText(GetCell(m, header, row, "seed_source")),
                 DateText(GetCell(m, header, row, "date_ordered")), DateText(GetCell(m, header, row, "date_finished")),
                 DateText(GetCell(m, header, row, "date_cataloged")), DateText(GetCell(m, header, row, "date_ran_out")),
                 PlainText(GetCell(m, header, row, "amount_text")), None, None, now))
  }

  /**
   * A row fails only on a non-empty text packet count that is not an
   * integer, with the message `int()` raises; a numeric count is taken as it is.
   */
  lemma RowFailsIff(m: Mapping, header: seq<string>, row: seq<Cell>, parseInt: string -> Option<int>, now: string)
    ensures var r := RowToSeed(m, header, row, parseInt, now);
      var packets := GetCell(m, header, row, "packets_made");
      && (r.Err? <==> packets.Some? && packets.value.Str? && packets.value.s != "" && parseInt(packets.value.s).None?)
      && (r.Err? ==> r.error == "invalid literal for int() with base 10: '" + packets.value.s + "'")
      && (r.Ok? && packets.Some? && packets.value.Num? ==> r.value.packetsMade == packets.value.n)
      && (r.Ok? && packets.Some? && packets.value.Str? && packets.value.s != "" ==> parseInt(packets.value.s) == Some(r.value.packetsMade))
  {
  }

  /**
   * Unmapped or empty cells take the defaults: a packet count of 0, an empty
   * source and amount, no dates; both timestamps are the import time.
   */
  lemma RowDefaults(m: Mapping, header: seq<string>, row: seq<Cell>, parseInt: string -> Option<int>, now: string)
    ensures var r := RowToSeed(m, header, row, parseInt, now);
      && (!NotNa(GetCell(m, header, row, "packets_made")) ==> r.Ok? && r.value.packetsMade == 0)
      && (r.Ok? ==>
        && (!NotNa(GetCell(m, header, row, "seed_source")) ==> r.value.seedSource == "")
        && (!NotNa(GetCell(m, header, row, "amount_text")) ==> r.value.amountText == "")
        && (!NotNa(GetCell(m, header, row, "date_ordered")) ==> r.value.dateOrdered.None?)
        && (!NotNa(GetCell(m, header, row, "date_finished")) ==> r.value.dateFinished.None?)
        && (!NotNa(GetCell(m, header, row, "date_cataloged")) ==> r.value.dateCataloged.None?)
        && (!NotNa(GetCell(m, header, row, "date_ran_out")) ==> r.value.dateRanOut.None?)
        && r.value.createdAt == now && r.value.updatedAt == now)
  {
  }

  /**
   * Text cells come through unchanged; an unmapped Type or Name is "", but an
   * empty Type or Name cell becomes "nan", since those two fields are not
   * checked for NaN.
   */
  lemma RowTextCells(m: Mapping, header: seq<string>, row: seq<Cell>, parseInt: string -> Option<int>, now: string, s: string)
    requires RowToSeed(m, header, row, parseInt, now).Ok?
    ensures var seed := RowToSeed(m, header, row, parseInt, now).value;
      && (GetCell(m, header, row, "Type") == Some(Str(s)) ==> seed.seedType == s)
      && (GetCell(m, header, row, "Name") == Some(Str(s)) ==> seed.name == s)
      && (GetCell(m, header, row, "seed_source") == Some(Str(s)) ==> seed.seedSource == s)
      && (GetCell(m, header, row, "date_ordered") == Some(Str(s)) ==> seed.dateOrdered == Some(s))
      && (GetCell(m, header, row, "Type").None? ==> seed.seedType == "")
      && (GetCell(m, header, row, "Name").None? ==> seed.name == "")
      && (GetCell(m, header, row, "Type") == Some(Blank) ==> seed.seedType == "nan")
      && (GetCell(m, header, row, "Name") == Some(Blank) ==> seed.name == "nan")
  {
  }

  /** What each row of the sheet becomes. */
  function RowOutcomes(m: Mapping, header: seq<string>, rows: seq<seq<Cell>>, parseInt: string -> Option<int>, now: string)
    : (r: seq<Result<Seed, string>>)
    ensures |r| == |rows| && forall i :: 0 <= i < |rows| ==> r[i] == RowToSeed(m, header, rows[i], parseInt, now)
  {
    seq(|rows|, i requires 0 <= i < |rows| => RowToSeed(m, header, rows[i], parseInt, now))
  }

  /** The seeds of the rows that succeed, in row order. */
  function ImportedSeeds(outcomes: seq<Result<Seed, string>>): seq<Seed> {
    if outcomes == [] then []
    else
      var last := outcomes[|outcomes| - 1];
      ImportedSeeds(outcomes[..|outcomes| - 1]) + (if last.Ok? then [last.value] else [])
  }

  /** The message of a failing row: its spreadsheet line (index + 2, after the header line) and the exception text. */
  function RowError(index: nat, message: string): string {
    "Row " + NatToString(index + 2) + ": " + message
  }

  /** One message per failing row, in row order. */
  function RowErrors(outcomes: seq<Result<Seed, string>>): seq<string> {
    if outcomes == [] then []
    else
      var last := outcomes[|outcomes| - 1];
      RowErrors(outcomes[..|outcomes| - 1]) + (if last.Err? then [RowError(|outcomes| - 1, last.error)] else [])
  }

  /** One more row: its seed is imported or its error is reported. */
  lemma OutcomesStep(outcomes: seq<Result<Seed, string>>, index: nat)
    requires index < |outcomes|
    ensures ImportedSeeds(outcomes[..index + 1])
         == ImportedSeeds(outcomes[..index]) + (if outcomes[index].Ok? then [outcomes[index].value] else [])
    ensures RowErrors(outcomes[..index + 1])
         == RowErrors(outcomes[..index]) + (if outcomes[index].Err? then [RowError(index, outcomes[index].error)] else [])
  {
    assert outcomes[..index + 1][..index] == outcomes[..index];
  }

  /** Every row either imports or is reported, never both. */
  lemma {:induction false} EveryRowAccounted(outcomes: seq<Result<Seed, string>>)
    ensures |ImportedSeeds(outcomes)| + |RowErrors(outcomes)| == |outcomes|
  {
    if outcomes != [] {
      EveryRowAccounted(outcomes[..|outcomes| - 1]);
    }
  }

  /** When every row builds, every seed is imported in row order and nothing is reported. */
  lemma {:induction false} CleanSheetImportsAll(outcomes: seq<Result<Seed, string>>)
    requires forall i :: 0 <= i < |outcomes| ==> outcomes[i].Ok?
    ensures RowErrors(outcomes) == []
    ensures |ImportedSeeds(outcomes)| == |outcomes|
    ensures forall i :: 0 <= i < |outcomes| ==> ImportedSeeds(outcomes)[i] == outcomes[i].value
  {
    if outcomes != [] {
      CleanSheetImportsAll(outcomes[..|outcomes| - 1]);
    }
  }

  /** The default inventory record of each seed in `ids`. */
  function DefaultInventories(ids: seq<int>, now: string): (r: seq<Inventory>)
    ensures |r| == |ids| && forall i :: 0 <= i < |ids| ==> r[i] == DefaultInventory(ids[i], now)
  {
    seq(|ids|, i requires 0 <= i < |ids| => DefaultInventory(ids[i], now))
  }

  datatype ImportResult =
    | Imported(importedCount: nat, totalRows: nat, errors: seq<string>)
    | MappingFailed(mappingErrors: seq<string>, totalRows: nat)
    | ReadFailed(error: string)
  {
    predicate Success() { Imported? }
  }

  /** The `error` text of a result whose mapping was rejected. */
  const MappingValidationFailed := "Mapping validation failed"

  /** A seed built from a row is stored exactly as built. */
  lemma RowSeedStoredAsIs(m: Mapping, header: seq<string>, row: seq<Cell>, parseInt: string -> Option<int>, now: string)
    requires RowToSeed(m, header, row, parseInt, now).Ok?
    ensures StoredSeed(RowToSeed(m, header, row, parseInt, now).value, now) == RowToSeed(m, header, row, parseInt, now).value
  {
  }

  /** One imported row: `create_seed`, then `get_or_create_inventory` on the new id. */
  method CreateSeedWithInventory(st: Store, seed: Seed, now: string, ghost seeds0: map<int, Seed>,
                                 ghost inventory0: map<int, Inventory>, ghost seedIds: seq<int>,
                                 ghost inventoryIds: seq<int>, ghost added: seq<Seed>)
    returns (seedId: int, ghost seedIds': seq<int>, ghost inventoryIds': seq<int>)
    requires st.Valid() && StoredSeed(seed, now) == seed
    requires Extends(seeds0, st.seeds, seedIds, added)
    requires Extends(inventory0, st.inventory, inventoryIds, DefaultInventories(seedIds, now))
    modifies st
    ensures st.Valid()
    ensures seedIds' == seedIds + [seedId]
    ensures Extends(seeds0, st.seeds, seedIds', added + [seed])
    ensures Extends(inventory0, st.inventory, inventoryIds', DefaultInventories(seedIds', now))
    ensures st.tasks == old(st.tasks) && st.adjustments == old(st.adjustments)
  {
    ghost var seedsBefore := st.seeds;
    ghost var inventoryBefore := st.inventory;
    seedId := st.CreateSeed(seed, now);
    ExtendsStep(seeds0, seedsBefore, seedIds, added, seedId, seed);
    seedIds' := seedIds + [seedId];
    // the seed is new, so no record refers to it yet
    assert forall k :: k in st.inventory ==> st.inventory[k].seedId != seedId;
    var inventory := st.GetOrCreateInventory(seedId, now);
    ExtendsStep(inventory0, inventoryBefore, inventoryIds, DefaultInventories(seedIds, now), inventory.value.id, DefaultInventory(seedId, now));
    inventoryIds' := inventoryIds + [inventory.value.id];
    assert DefaultInventories(seedIds', now) == DefaultInventories(seedIds, now) + [DefaultInventory(seedId, now)];
  }

  /**
   * The row loop: each row's seed is created with its default inventory
   * record, or its error message is collected.
   */
  method ImportRows(st: Store, mapping: Mapping, header: seq<string>, rows: seq<seq<Cell>>,
                    parseInt: string -> Option<int>, now: string)
    returns (importedCount: nat, errors: seq<string>, ghost seedIds: seq<int>, ghost inventoryIds: seq<int>)
    requires st.Valid()
    modifies st
    ensures st.Valid()
    ensures var outcomes := RowOutcomes(mapping, header, rows, parseInt, now);
      && importedCount == |ImportedSeeds(outcomes)| && errors == RowErrors(outcomes)
      && Extends(old(st.seeds), st.seeds, seedIds, ImportedSeeds(outcomes))
      && Extends(old(st.inventory), st.inventory, inventoryIds, DefaultInventories(seedIds, now))
    ensures st.tasks == old(st.tasks) && st.adjustments == old(st.adjustments)
  {
    ghost var outcomes := RowOutcomes(mapping, header, rows, parseInt, now);
    importedCount, errors, seedIds, inventoryIds := 0, [], [], [];
    var index := 0;
    while index < |rows|
      invariant 0 <= index <= |rows|
      invariant st.Valid()
      invariant importedCount == |ImportedSeeds(outcomes[..index])| && errors == RowErrors(outcomes[..index])
      invariant Extends(old(st.seeds), st.seeds, seedIds, ImportedSeeds(outcomes[..index]))
      invariant Extends(old(st.inventory), st.inventory, inventoryIds, DefaultInventories(seedIds, now))
      invariant st.tasks == old(st.tasks) && st.adjustments == old(st.adjustments)
    {
      OutcomesStep(outcomes, index);
      var outcome := RowToSeed(mapping, header, rows[index], parseInt, now);
      if outcome.Ok? {
        RowSeedStoredAsIs(mapping, header, rows[index], parseInt, now);
        var seedId;
        seedId, seedIds, inventoryIds := CreateSeedWithInventory(st, outcome.value, now, old(st.seeds), old(st.inventory),
                                                                 seedIds, inventoryIds, ImportedSeeds(outcomes[..index]));
        importedCount := importedCount + 1;
      } else {
        errors := errors + [RowError(index, outcome.error)];
      }
      index := index + 1;
    }
    assert outcomes[..index] == outcomes;
  }

  /**
   * `import_seeds_from_excel`. `read` is what reading the file gave: the sheet,
   * or the text of the exception. A read failure and a rejected mapping change
   * nothing; otherwise every row is imported or reported.
   */
  method ImportSeedsFromExcel(st: Store, read: Result<Sheet, string>, mapping: Mapping,
                              parseInt: string -> Option<int>, now: string)
    returns (result: ImportResult, ghost seedIds: seq<int>)
    requires st.Valid()
    modifies st
    ensures st.Valid()
    ensures read.Err? ==> result == ReadFailed(read.error)
    ensures read.Ok? ==>
      var header := StripHeader(read.value.header);
      var mappingErrors := MappingErrors(mapping, header);
      (mappingErrors != [] ==> result == MappingFailed(Messages(mappingErrors), |read.value.rows|))
      && (mappingErrors == [] ==>
        var outcomes := RowOutcomes(mapping, header, read.value.rows, parseInt, now);
        && result == Imported(|ImportedSeeds(outcomes)|, |read.value.rows|, RowErrors(outcomes))
        && result.importedCount + |result.errors| == result.totalRows
        && Extends(old(st.seeds), st.seeds, seedIds, ImportedSeeds(outcomes)))
    ensures !result.Success() ==> st.seeds == old(st.seeds) && st.inventory == old(st.inventory)
    ensures result.Success() ==> exists inventoryIds :: Extends(old(st.inventory), st.inventory, inventoryIds, DefaultInventories(seedIds, now))
    ensures st.tasks == old(st.tasks) && st.adjustments == old(st.adjustments)
  {
    seedIds := [];
    if read.Err? {
      return ReadFailed(read.error), seedIds;
    }
    var sheet := read.value;
    var header := StripHeader(sheet.header);
    var mappingErrors := ValidateMapping(mapping, header);
    if mappingErrors != [] {
      return MappingFailed(Messages(mappingErrors), |sheet.rows|), seedIds;
    }
    var importedCount, errors;
    ghost var inventoryIds;
    importedCount, errors, seedIds, inventoryIds := ImportRows(st, mapping, header, sheet.rows, parseInt, now);
    EveryRowAccounted(RowOutcomes(mapping, header, sheet.rows, parseInt, now));
    result := Imported(importedCount, |sheet.rows|, errors);
  }
}
