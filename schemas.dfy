/**
 * The two form schemas: the field constraints and validators of
 * `SeedUpdate` and `InventoryUpdate`. A form field arrives absent (`None`),
 * as JSON null where the field is optional, or as a value; validation either
 * yields the validated record or the list of every failing field, in field
 * order, as pydantic's `ValidationError` lists them.
 */
module Schemas {
  import opened Wrappers
  import opened Text

  /** The fields of the two schemas whose constraints can fail. */
  datatype Field = Name | Type | PacketsMade | DateOrdered | DateFinished | DateCataloged | DateRanOut
  {
    /** The field's name in the form and in the error's `loc`. */
    function Loc(): string {
      match this
      case Name => "name"
      case Type => "type"
      case PacketsMade => "packets_made"
      case DateOrdered => "date_ordered"
      case DateFinished => "date_finished"
      case DateCataloged => "date_cataloged"
      case DateRanOut => "date_ran_out"
    }
  }

  /** Why a field fails: pydantic's `missing`, `string_too_short`, `greater_than_equal` and date parsing errors. */
  datatype Problem = Missing | TooShort | Negative | InvalidDate

  /** One entry of a validation error: the field and what is wrong with it. */
  datatype FieldError = FieldError(field: Field, problem: Problem)

  /** A validated `SeedUpdate`; dates are day numbers. */
  datatype SeedUpdate = SeedUpdate(
    name: string, seedType: string, packetsMade: int, seedSource: Option<string>,
    dateOrdered: Option<int>, dateFinished: Option<int>, dateCataloged: Option<int>, dateRanOut: Option<int>,
    amountText: Option<string>)

  /** A validated `InventoryUpdate`. */
  datatype InventoryUpdate = InventoryUpdate(
    currentAmount: Option<string>, buyMore: bool, extra: bool, notes: Option<string>)

  // ---------------------------------------------------------------------------
  // Single fields

  /** A required text field with `min_length=1`: absent or empty is an error. */
  function RequiredTextErrors(field: Field, v: Option<string>): (r: seq<FieldError>)
    ensures r == [] <==> v.Some? && |v.value| >= 1
    ensures r != [] ==> |r| == 1 && r[0].field == field
  {
    if v.None? then [FieldError(field, Missing)]
    else if |v.value| < 1 then [FieldError(field, TooShort)]
    else []
  }

  /** `packets_made`: `ge=0`, with 0 when absent. */
  function PacketsErrors(v: Option<int>): (r: seq<FieldError>)
    ensures r == [] <==> v.None? || v.value >= 0
    ensures r != [] ==> r == [FieldError(PacketsMade, Negative)]
  {
    if v.Some? && v.value < 0 then [FieldError(PacketsMade, Negative)] else []
  }

  /**
   * An optional text field whose validator strips strings and passes None
   * through. The outer None is an absent field, which takes the default "".
   */
  function StripOptional(v: Option<Option<string>>): (r: Option<string>)
    ensures r.None? <==> v == Some(None)
    ensures v.None? ==> r == Some("")
    ensures v.Some? && v.value.Some? ==> r == Some(Strip(v.value.value))
    ensures r.Some? ==> Trimmed(r.value)
  {
    match v
    case None => StripOfTrimmed(""); Some("")
    case Some(None) => None
    case Some(Some(s)) => Some(Strip(s))
  }

  /** The `mode="before"` date validator: an empty string, or no value, becomes None. */
  function EmptyToNone(v: Option<string>): (r: Option<string>)
    ensures r.None? <==> v.None? || v.value == ""
    ensures r.Some? ==> r == v
  {
    if v.None? || v.value == "" then None else v
  }

  /** A date field: None after the before-validator, else whatever the date parser makes of it. */
  function DateValue(v: Option<string>, parseDate: string -> Option<int>): Result<Option<int>, ()> {
    match EmptyToNone(v)
    case None => Ok(None)
    case Some(s) => if parseDate(s).Some? then Ok(Some(parseDate(s).value)) else Err(())
  }

  function DateErrors(field: Field, v: Option<string>, parseDate: string -> Option<int>): (r: seq<FieldError>)
    ensures r == [] <==> DateValue(v, parseDate).Ok?
    ensures r != [] ==> r == [FieldError(field, InvalidDate)]
  {
    if DateValue(v, parseDate).Ok? then [] else [FieldError(field, InvalidDate)]
  }

  /** A date field is acceptable when it is absent, empty, or a date the parser reads. */
  predicate DateAcceptable(v: Option<string>, parseDate: string -> Option<int>) {
    v.None? || v.value == "" || parseDate(v.value).Some?
  }

  lemma DateValueIff(v: Option<string>, parseDate: string -> Option<int>)
    ensures DateValue(v, parseDate).Ok? <==> DateAcceptable(v, parseDate)
    ensures DateValue(v, parseDate) == Ok(None) <==> v.None? || v.value == ""
    ensures v.Some? && v.value != "" && parseDate(v.value).Some? ==> DateValue(v, parseDate) == Ok(parseDate(v.value))
  {
  }

  // ---------------------------------------------------------------------------
  // SeedUpdate

  /** The failing date fields of a seed form, in field order. */
  function DateFieldErrors(dateOrdered: Option<string>, dateFinished: Option<string>,
                           dateCataloged: Option<string>, dateRanOut: Option<string>,
                           parseDate: string -> Option<int>): (r: seq<FieldError>)
    ensures forall e :: e in r ==> e.problem == InvalidDate
    ensures FieldError(DateOrdered, InvalidDate) in r <==> !DateAcceptable(dateOrdered, parseDate)
    ensures FieldError(DateFinished, InvalidDate) in r <==> !DateAcceptable(dateFinished, parseDate)
    ensures FieldError(DateCataloged, InvalidDate) in r <==> !DateAcceptable(dateCataloged, parseDate)
    ensures FieldError(DateRanOut, InvalidDate) in r <==> !DateAcceptable(dateRanOut, parseDate)
  {
    DateValueIff(dateOrdered, parseDate);
    DateValueIff(dateFinished, parseDate);
    DateValueIff(dateCataloged, parseDate);
    DateValueIff(dateRanOut, parseDate);
    DateErrors(DateOrdered, dateOrdered, parseDate) + DateErrors(DateFinished, dateFinished, parseDate)
    + DateErrors(DateCataloged, dateCataloged, parseDate) + DateErrors(DateRanOut, dateRanOut, parseDate)
  }

  /** Every failing field of a seed form, in the schema's field order. */
  function SeedUpdateErrors(name: Option<string>, seedType: Option<string>, packetsMade: Option<int>,
                            dateOrdered: Option<string>, dateFinished: Option<string>,
                            dateCataloged: Option<string>, dateRanOut: Option<string>,
                            parseDate: string -> Option<int>): seq<FieldError>
  {
    RequiredTextErrors(Name, name) + RequiredTextErrors(Type, seedType) + PacketsErrors(packetsMade)
    + DateFieldErrors(dateOrdered, dateFinished, dateCataloged, dateRanOut, parseDate)
  }

  /** `SeedUpdate(**form)`: the validated record, or every field that fails. */
  function ValidateSeedUpdate(name: Option<string>, seedType: Option<string>, packetsMade: Option<int>,
                              seedSource: Option<Option<string>>, dateOrdered: Option<string>,
                              dateFinished: Option<string>, dateCataloged: Option<string>, dateRanOut: Option<string>,
                              amountText: Option<Option<string>>, parseDate: string -> Option<int>)
    : Result<SeedUpdate, seq<FieldError>>
  {
    var errors := SeedUpdateErrors(name, seedType, packetsMade, dateOrdered, dateFinished, dateCataloged,
                                   dateRanOut, parseDate);
    if errors != [] then Err(errors)
    else
      Ok(SeedUpdate(name.value, seedType.value, packetsMade.GetOr(0), StripOptional(seedSource),
                    DateValue(dateOrdered, parseDate).value, DateValue(dateFinished, parseDate).value,
                    DateValue(dateCataloged, parseDate).value, DateValue(dateRanOut, parseDate).value,
                    StripOptional(amountText)))
  }

  /** A seed form validates exactly when name and type are given and non-empty, packets are not negative, and every date is acceptable. */
  lemma SeedUpdateAcceptedIff(name: Option<string>, seedType: Option<string>, packetsMade: Option<int>,
                              seedSource: Option<Option<string>>, dateOrdered: Option<string>,
                              dateFinished: Option<string>, dateCataloged: Option<string>, dateRanOut: Option<string>,
                              amountText: Option<Option<string>>, parseDate: string -> Option<int>)
    ensures ValidateSeedUpdate(name, seedType, packetsMade, seedSource, dateOrdered, dateFinished, dateCataloged,
                               dateRanOut, amountText, parseDate).Ok?
        <==> && name.Some? && |name.value| >= 1 && seedType.Some? && |seedType.value| >= 1
             && (packetsMade.None? || packetsMade.value >= 0)
             && DateAcceptable(dateOrdered, parseDate) && DateAcceptable(dateFinished, parseDate)
             && DateAcceptable(dateCataloged, parseDate) && DateAcceptable(dateRanOut, parseDate)
  {
    DateValueIff(dateOrdered, parseDate);
    DateValueIff(dateFinished, parseDate);
    DateValueIff(dateCataloged, parseDate);
    DateValueIff(dateRanOut, parseDate);
  }

  /** The name and type entries of a seed form's error list report exactly a missing or empty name or type, a missing name first. */
  lemma NameAndTypeErrors(name: Option<string>, seedType: Option<string>, packetsMade: Option<int>,
                          dateOrdered: Option<string>, dateFinished: Option<string>,
                          dateCataloged: Option<string>, dateRanOut: Option<string>, parseDate: string -> Option<int>)
    ensures FieldError(Name, Missing) in SeedUpdateErrors(name, seedType, packetsMade, dateOrdered, dateFinished, dateCataloged, dateRanOut, parseDate) <==> name.None?
    ensures FieldError(Name, TooShort) in SeedUpdateErrors(name, seedType, packetsMade, dateOrdered, dateFinished, dateCataloged, dateRanOut, parseDate) <==> name == Some("")
    ensures FieldError(Type, Missing) in SeedUpdateErrors(name, seedType, packetsMade, dateOrdered, dateFinished, dateCataloged, dateRanOut, parseDate) <==> seedType.None?
    ensures FieldError(Type, TooShort) in SeedUpdateErrors(name, seedType, packetsMade, dateOrdered, dateFinished, dateCataloged, dateRanOut, parseDate) <==> seedType == Some("")
    ensures name.None? ==> SeedUpdateErrors(name, seedType, packetsMade, dateOrdered, dateFinished, dateCataloged, dateRanOut, parseDate)[0] == FieldError(Name, Missing)
  {
    var rest := PacketsErrors(packetsMade) + DateFieldErrors(dateOrdered, dateFinished, dateCataloged, dateRanOut, parseDate);
    assert SeedUpdateErrors(name, seedType, packetsMade, dateOrdered, dateFinished, dateCataloged, dateRanOut, parseDate)
        == RequiredTextErrors(Name, name) + RequiredTextErrors(Type, seedType) + rest;
    assert forall e :: e in rest ==> e.problem == Negative || e.problem == InvalidDate;
    RequiredPairErrors(name, seedType, rest);
  }

  /** Name and type errors in front of a list of packet and date errors. */
  lemma RequiredPairErrors(name: Option<string>, seedType: Option<string>, rest: seq<FieldError>)
    requires forall e :: e in rest ==> e.problem == Negative || e.problem == InvalidDate
    ensures var errors := RequiredTextErrors(Name, name) + RequiredTextErrors(Type, seedType) + rest;
      && (FieldError(Name, Missing) in errors <==> name.None?)
      && (FieldError(Name, TooShort) in errors <==> name == Some(""))
      && (FieldError(Type, Missing) in errors <==> seedType.None?)
      && (FieldError(Type, TooShort) in errors <==> seedType == Some(""))
      && (name.None? ==> errors[0] == FieldError(Name, Missing))
  {
    var nameErrors := RequiredTextErrors(Name, name);
    var typeErrors := RequiredTextErrors(Type, seedType);
    assert forall e :: e in nameErrors ==> e.field == Name;
    assert forall e :: e in typeErrors ==> e.field == Type;
  }

  /** The packet-count and date entries of a seed form's error list report exactly the failing fields. */
  lemma PacketsAndDateErrors(name: Option<string>, seedType: Option<string>, packetsMade: Option<int>,
                          dateOrdered: Option<string>, dateFinished: Option<string>,
                          dateCataloged: Option<string>, dateRanOut: Option<string>, parseDate: string -> Option<int>)
    ensures FieldError(PacketsMade, Negative) in SeedUpdateErrors(name, seedType, packetsMade, dateOrdered, dateFinished, dateCataloged, dateRanOut, parseDate) <==> packetsMade.Some? && packetsMade.value < 0
    ensures FieldError(DateOrdered, InvalidDate) in SeedUpdateErrors(name, seedType, packetsMade, dateOrdered, dateFinished, dateCataloged, dateRanOut, parseDate) <==> !DateAcceptable(dateOrdered, parseDate)
    ensures FieldError(DateFinished, InvalidDate) in SeedUpdateErrors(name, seedType, packetsMade, dateOrdered, dateFinished, dateCataloged, dateRanOut, parseDate) <==> !DateAcceptable(dateFinished, parseDate)
    ensures FieldError(DateCataloged, InvalidDate) in SeedUpdateErrors(name, seedType, packetsMade, dateOrdered, dateFinished, dateCataloged, dateRanOut, parseDate) <==> !DateAcceptable(dateCataloged, parseDate)
    ensures FieldError(DateRanOut, InvalidDate) in SeedUpdateErrors(name, seedType, packetsMade, dateOrdered, dateFinished, dateCataloged, dateRanOut, parseDate) <==> !DateAcceptable(dateRanOut, parseDate)
  {
    var front := RequiredTextErrors(Name, name) + RequiredTextErrors(Type, seedType);
    assert forall e :: e in front ==> e.problem == Missing || e.problem == TooShort;
    var packets := PacketsErrors(packetsMade);
    var dates := DateFieldErrors(dateOrdered, dateFinished, dateCataloged, dateRanOut, parseDate);
    assert SeedUpdateErrors(name, seedType, packetsMade, dateOrdered, dateFinished, dateCataloged, dateRanOut, parseDate)
        == front + packets + dates;
    TailErrors(front, packetsMade, dates);
  }

  /** Packet and date errors behind a list of name and type errors. */
  lemma TailErrors(front: seq<FieldError>, packetsMade: Option<int>, dates: seq<FieldError>)
    requires forall e :: e in front ==> e.problem == Missing || e.problem == TooShort
    requires forall e :: e in dates ==> e.problem == InvalidDate
    ensures var errors := front + PacketsErrors(packetsMade) + dates;
      && (FieldError(PacketsMade, Negative) in errors <==> packetsMade.Some? && packetsMade.value < 0)
      && (FieldError(DateOrdered, InvalidDate) in errors <==> FieldError(DateOrdered, InvalidDate) in dates)
      && (FieldError(DateFinished, InvalidDate) in errors <==> FieldError(DateFinished, InvalidDate) in dates)
      && (FieldError(DateCataloged, InvalidDate) in errors <==> FieldError(DateCataloged, InvalidDate) in dates)
      && (FieldError(DateRanOut, InvalidDate) in errors <==> FieldError(DateRanOut, InvalidDate) in dates)
  {
    assert forall e :: e in PacketsErrors(packetsMade) ==> e.problem == Negative;
  }

  /**
   * A rejected seed form lists at least one error, and an entry appears for a
   * field exactly when that field fails its constraint; a missing name is
   * reported first.
   */
  lemma SeedUpdateErrorsExplain(name: Option<string>, seedType: Option<string>, packetsMade: Option<int>,
                                seedSource: Option<Option<string>>, dateOrdered: Option<string>,
                                dateFinished: Option<string>, dateCataloged: Option<string>, dateRanOut: Option<string>,
                                amountText: Option<Option<string>>, parseDate: string -> Option<int>)
    ensures var r := ValidateSeedUpdate(name, seedType, packetsMade, seedSource, dateOrdered, dateFinished,
                                        dateCataloged, dateRanOut, amountText, parseDate);
      r.Err? ==>
        && r.error != []
        && (FieldError(Name, Missing) in r.error <==> name.None?)
        && (FieldError(Name, TooShort) in r.error <==> name == Some(""))
        && (FieldError(Type, Missing) in r.error <==> seedType.None?)
        && (FieldError(Type, TooShort) in r.error <==> seedType == Some(""))
        && (FieldError(PacketsMade, Negative) in r.error <==> packetsMade.Some? && packetsMade.value < 0)
        && (FieldError(DateOrdered, InvalidDate) in r.error <==> !DateAcceptable(dateOrdered, parseDate))
        && (FieldError(DateFinished, InvalidDate) in r.error <==> !DateAcceptable(dateFinished, parseDate))
        && (FieldError(DateCataloged, InvalidDate) in r.error <==> !DateAcceptable(dateCataloged, parseDate))
        && (FieldError(DateRanOut, InvalidDate) in r.error <==> !DateAcceptable(dateRanOut, parseDate))
        && (name.None? ==> r.error[0] == FieldError(Name, Missing))
  {
    NameAndTypeErrors(name, seedType, packetsMade, dateOrdered, dateFinished, dateCataloged, dateRanOut, parseDate);
    PacketsAndDateErrors(name, seedType, packetsMade, dateOrdered, dateFinished, dateCataloged, dateRanOut, parseDate);
  }

  /**
   * What a validated seed form holds: name and type as given, packets
   * defaulting to 0, both free-text fields stripped (None kept), and every
   * empty date turned into None.
   */
  lemma SeedUpdateValues(name: Option<string>, seedType: Option<string>, packetsMade: Option<int>,
                         seedSource: Option<Option<string>>, dateOrdered: Option<string>,
                         dateFinished: Option<string>, dateCataloged: Option<string>, dateRanOut: Option<string>,
                         amountText: Option<Option<string>>, parseDate: string -> Option<int>)
    ensures var r := ValidateSeedUpdate(name, seedType, packetsMade, seedSource, dateOrdered, dateFinished,
                                        dateCataloged, dateRanOut, amountText, parseDate);
      r.Ok? ==>
        && r.value.name == name.value && r.value.seedType == seedType.value
        && |r.value.name| >= 1 && |r.value.seedType| >= 1
        && r.value.packetsMade >= 0 && (packetsMade.None? ==> r.value.packetsMade == 0)
        && (packetsMade.Some? ==> r.value.packetsMade == packetsMade.value)
        && (seedSource.None? ==> r.value.seedSource == Some(""))
        && (seedSource == Some(None) ==> r.value.seedSource == None)
        && (seedSource.Some? && seedSource.value.Some? ==> r.value.seedSource == Some(Strip(seedSource.value.value)))
        && (r.value.seedSource.Some? ==> Trimmed(r.value.seedSource.value))
        && (amountText.None? ==> r.value.amountText == Some(""))
        && (amountText == Some(None) ==> r.value.amountText == None)
        && (amountText.Some? && amountText.value.Some? ==> r.value.amountText == Some(Strip(amountText.value.value)))
        && (r.value.amountText.Some? ==> Trimmed(r.value.amountText.value))
        && (dateOrdered.None? || dateOrdered == Some("") ==> r.value.dateOrdered == None)
        && (dateFinished.None? || dateFinished == Some("") ==> r.value.dateFinished == None)
        && (dateCataloged.None? || dateCataloged == Some("") ==> r.value.dateCataloged == None)
        && (dateRanOut.None? || dateRanOut == Some("") ==> r.value.dateRanOut == None)
        && (dateOrdered.Some? && dateOrdered.value != "" ==> r.value.dateOrdered == parseDate(dateOrdered.value))
        && (dateFinished.Some? && dateFinished.value != "" ==> r.value.dateFinished == parseDate(dateFinished.value))
        && (dateCataloged.Some? && dateCataloged.value != "" ==> r.value.dateCataloged == parseDate(dateCataloged.value))
        && (dateRanOut.Some? && dateRanOut.value != "" ==> r.value.dateRanOut == parseDate(dateRanOut.value))
  {
    var errors := SeedUpdateErrors(name, seedType, packetsMade, dateOrdered, dateFinished, dateCataloged,
                                   dateRanOut, parseDate);
    if errors == [] {
      DateValueIff(dateOrdered, parseDate);
      DateValueIff(dateFinished, parseDate);
      DateValueIff(dateCataloged, parseDate);
      DateValueIff(dateRanOut, parseDate);
    }
  }

  /** Validating the text of an already validated form again changes nothing: the validators are idempotent. */
  lemma SeedTextRevalidation(u: SeedUpdate, parseDate: string -> Option<int>)
    requires |u.name| >= 1 && |u.seedType| >= 1 && u.packetsMade >= 0
    requires u.seedSource.Some? ==> Trimmed(u.seedSource.value)
    requires u.amountText.Some? ==> Trimmed(u.amountText.value)
    ensures var r := ValidateSeedUpdate(Some(u.name), Some(u.seedType), Some(u.packetsMade), Some(u.seedSource),
                                        None, None, None, None, Some(u.amountText), parseDate);
      r.Ok? && r.value == u.(dateOrdered := None, dateFinished := None, dateCataloged := None, dateRanOut := None)
  {
    assert SeedUpdateErrors(Some(u.name), Some(u.seedType), Some(u.packetsMade), None, None, None, None, parseDate) == [];
    if u.seedSource.Some? {
      StripOfTrimmed(u.seedSource.value);
    }
    assert StripOptional(Some(u.seedSource)) == u.seedSource;
    if u.amountText.Some? {
      StripOfTrimmed(u.amountText.value);
    }
    assert StripOptional(Some(u.amountText)) == u.amountText;
  }

  // ---------------------------------------------------------------------------
  // InventoryUpdate

  /** `InventoryUpdate(**form)`: it cannot fail; text is stripped and flags default to false. */
  function ValidateInventoryUpdate(currentAmount: Option<Option<string>>, buyMore: Option<bool>, extra: Option<bool>,
                                   notes: Option<Option<string>>): (r: InventoryUpdate)
    ensures r.currentAmount.Some? ==> Trimmed(r.currentAmount.value)
    ensures r.notes.Some? ==> Trimmed(r.notes.value)
    ensures r.currentAmount.None? <==> currentAmount == Some(None)
    ensures r.notes.None? <==> notes == Some(None)
    ensures currentAmount.None? ==> r.currentAmount == Some("")
    ensures notes.None? ==> r.notes == Some("")
    ensures currentAmount.Some? && currentAmount.value.Some? ==> r.currentAmount == Some(Strip(currentAmount.value.value))
    ensures notes.Some? && notes.value.Some? ==> r.notes == Some(Strip(notes.value.value))
    ensures r.buyMore <==> buyMore == Some(true)
    ensures r.extra <==> extra == Some(true)
  {
    InventoryUpdate(StripOptional(currentAmount), buyMore.GetOr(false), extra.GetOr(false), StripOptional(notes))
  }

  /** A padded amount keeps only its trimmed core, and validation is idempotent. */
  lemma InventoryUpdateStrips(w1: string, amount: string, w2: string, buyMore: Option<bool>, extra: Option<bool>)
    requires AllSpace(w1) && AllSpace(w2) && Trimmed(amount)
    ensures var r := ValidateInventoryUpdate(Some(Some(w1 + amount + w2)), buyMore, extra, None);
      r.currentAmount == Some(amount)
      && ValidateInventoryUpdate(Some(r.currentAmount), Some(r.buyMore), Some(r.extra), Some(r.notes)) == r
  {
    var r := ValidateInventoryUpdate(Some(Some(w1 + amount + w2)), buyMore, extra, None);
    StripPadded(w1, amount, w2);
    InventoryRevalidation(r);
  }

  /** Validating the values of a validated inventory form again gives the same form. */
  lemma InventoryRevalidation(u: InventoryUpdate)
    requires u.currentAmount.Some? ==> Trimmed(u.currentAmount.value)
    requires u.notes.Some? ==> Trimmed(u.notes.value)
    ensures ValidateInventoryUpdate(Some(u.currentAmount), Some(u.buyMore), Some(u.extra), Some(u.notes)) == u
  {
    if u.currentAmount.Some? {
      StripOfTrimmed(u.currentAmount.value);
    }
    if u.notes.Some? {
      StripOfTrimmed(u.notes.value);
    }
  }
}
