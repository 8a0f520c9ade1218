/**
 * The patient intake form (src/components/forms/PatientIntakeForm.tsx): the schema the
 * submitted values must satisfy, the form's default values, and the effect that generates a
 * pseudonymized id at most once.
 */
module IntakeForm {
  import opened Wrappers
  import opened Medical
  import Utils

  /** A number input read with `valueAsNumber`: absent, NaN (an empty or unparsable field), or a number. */
  datatype NumField = Absent | NaN | Num(n: real)

  /** The raw form values; the two selects deliver their option text. */
  datatype FormValues = FormValues(
    pseudonymizedId: string,
    ageRange: Option<string>,
    biologicalSex: Option<string>,
    heightCm: NumField,
    weightKg: NumField,
    consentGiven: bool)

  /** The validated intake record; the schema narrows sex to two values. */
  datatype IntakeSex = IntakeMale | IntakeFemale

  datatype PatientIntakeData = PatientIntakeData(
    pseudonymizedId: string,
    ageRange: AgeRange,
    biologicalSex: IntakeSex,
    heightCm: Option<real>,
    weightKg: Option<real>,
    consentGiven: bool)

  datatype FieldError = IdRequired | BadAgeRange | BadSex | BadHeight | BadWeight | ConsentMissing

  /** The messages the schema sets itself; `None` leaves the validation library's default. */
  function ErrorMessage(e: FieldError): Option<string> {
    match e
    case IdRequired => Some("Patient ID is required")
    case ConsentMissing => Some("Patient consent is required to proceed")
    case _ => None
  }

  /** The eight age buckets of the enum, by their option text. */
  function ParseAgeRange(s: string): Option<AgeRange> {
    if s == "0-17" then Some(Age0To17)
    else if s == "18-29" then Some(Age18To29)
    else if s == "30-39" then Some(Age30To39)
    else if s == "40-49" then Some(Age40To49)
    else if s == "50-59" then Some(Age50To59)
    else if s == "60-69" then Some(Age60To69)
    else if s == "70-79" then Some(Age70To79)
    else if s == "80+" then Some(Age80Plus)
    else None
  }

  function AgeRangeText(a: AgeRange): string {
    match a
    case Age0To17 => "0-17"
    case Age18To29 => "18-29"
    case Age30To39 => "30-39"
    case Age40To49 => "40-49"
    case Age50To59 => "50-59"
    case Age60To69 => "60-69"
    case Age70To79 => "70-79"
    case Age80Plus => "80+"
  }

  /** Every age bucket is accepted under its own text, and only under it. */
  lemma AgeRangeRoundTrip(a: AgeRange, s: string)
    ensures ParseAgeRange(AgeRangeText(a)) == Some(a)
    ensures ParseAgeRange(s) == Some(a) ==> s == AgeRangeText(a)
  {
  }

  function ParseSex(s: string): Option<IntakeSex> {
    if s == "male" then Some(IntakeMale) else if s == "female" then Some(IntakeFemale) else None
  }

  /** `z.number().min(0).optional()`: absent is fine, NaN is not a number, negatives fail. */
  predicate NumFieldOk(f: NumField) {
    f.Absent? || (f.Num? && f.n >= 0.0)
  }

  function NumFieldValue(f: NumField): Option<real> {
    if f.Num? then Some(f.n) else None
  }

  datatype Validation = Valid(data: PatientIntakeData) | Invalid(errors: seq<FieldError>)

  function CheckIf(bad: bool, e: FieldError): seq<FieldError> {
    if bad then [e] else []
  }

  /** `patientSchema.safeParse`: every failing field reports, in the schema's field order. */
  function Validate(v: FormValues): (r: Validation)
    ensures r.Valid? <==>
              && v.pseudonymizedId != ""
              && v.ageRange.Some? && ParseAgeRange(v.ageRange.value).Some?
              && v.biologicalSex.Some? && (v.biologicalSex.value == "male" || v.biologicalSex.value == "female")
              && NumFieldOk(v.heightCm) && NumFieldOk(v.weightKg)
              && v.consentGiven
    ensures r.Invalid? ==> r.errors != []
    ensures r.Invalid? ==> (ConsentMissing in r.errors <==> !v.consentGiven)
    ensures r.Invalid? ==> (IdRequired in r.errors <==> v.pseudonymizedId == "")
    ensures r.Valid? ==> r.data.pseudonymizedId == v.pseudonymizedId && r.data.consentGiven
                         && r.data.heightCm == NumFieldValue(v.heightCm)
                         && r.data.weightKg == NumFieldValue(v.weightKg)
                         && AgeRangeText(r.data.ageRange) == v.ageRange.value
                         && Some(r.data.biologicalSex) == ParseSex(v.biologicalSex.value)
  {
    var age := if v.ageRange.Some? then ParseAgeRange(v.ageRange.value) else None;
    var sex := if v.biologicalSex.Some? then ParseSex(v.biologicalSex.value) else None;
    var errors :=
      CheckIf(v.pseudonymizedId == "", IdRequired)
      + CheckIf(age.None?, BadAgeRange)
      + CheckIf(sex.None?, BadSex)
      + CheckIf(!NumFieldOk(v.heightCm), BadHeight)
      + CheckIf(!NumFieldOk(v.weightKg), BadWeight)
      + CheckIf(!v.consentGiven, ConsentMissing);
    if errors == [] then
      AgeRangeRoundTrip(age.value, v.ageRange.value);
      Valid(PatientIntakeData(v.pseudonymizedId, age.value, sex.value,
                              NumFieldValue(v.heightCm), NumFieldValue(v.weightKg), true))
    else Invalid(errors)
  }

  /**
   * An empty height or weight box reaches the schema as NaN, which `z.number()` refuses, so a
   * field the schema marks optional blocks submission when it is left empty.
   */
  lemma EmptyMeasurementRejected(v: FormValues)
    requires v.heightCm.NaN? || v.weightKg.NaN?
    ensures Validate(v).Invalid?
    ensures v.heightCm.NaN? ==> BadHeight in Validate(v).errors
    ensures v.weightKg.NaN? ==> BadWeight in Validate(v).errors
  {
  }

  /** An empty measurement box read as "not given". */
  function Blank(f: NumField): NumField {
    if f.NaN? then Absent else f
  }

  /** A measurement that may be left out but, when given, is not negative. */
  predicate MeasurementOk(f: NumField) {
    !(f.Num? && f.n < 0.0)
  }

  /** Validation as the optional measurements intend it: an empty box counts as absent. */
  function ValidateIntended(v: FormValues): (r: Validation)
    ensures r.Valid? <==>
              && v.pseudonymizedId != ""
              && v.ageRange.Some? && ParseAgeRange(v.ageRange.value).Some?
              && v.biologicalSex.Some? && (v.biologicalSex.value == "male" || v.biologicalSex.value == "female")
              && MeasurementOk(v.heightCm) && MeasurementOk(v.weightKg)
              && v.consentGiven
    ensures r.Valid? ==> r.data.pseudonymizedId == v.pseudonymizedId && r.data.consentGiven
                         && r.data.heightCm == NumFieldValue(v.heightCm)
                         && r.data.weightKg == NumFieldValue(v.weightKg)
    ensures !v.heightCm.NaN? && !v.weightKg.NaN? ==> r == Validate(v)
  {
    Validate(v.(heightCm := Blank(v.heightCm), weightKg := Blank(v.weightKg)))
  }

  /** A complete form with the height box left empty: refused as written, accepted as intended. */
  lemma EmptyHeightExample()
    ensures var v := FormValues("PT-1", Some("30-39"), Some("female"), NumField.NaN, NumField.Num(60.0), true);
            Validate(v).Invalid? && ValidateIntended(v).Valid? && ValidateIntended(v).data.heightCm.None?
  {
  }

  /** The record type's other two sexes are refused by the form. */
  lemma SexNarrowerThanRecord(v: FormValues)
    requires v.biologicalSex == Some("other") || v.biologicalSex == Some("not-specified")
    ensures Validate(v).Invalid? && BadSex in Validate(v).errors
  {
  }

  /** `initialData`: each key present or not. */
  datatype InitialData = InitialData(
    pseudonymizedId: Option<string>,
    ageRange: Option<string>,
    biologicalSex: Option<string>,
    heightCm: Option<real>,
    weightKg: Option<real>,
    consentGiven: Option<bool>)

  /**
   * `defaultValues`: an empty id and no consent, then every key of `initialData` spread over
   * them. A number box without a default value is empty on the page, and `valueAsNumber` reads
   * an empty box as NaN.
   */
  function Defaults(init: InitialData): (v: FormValues)
    ensures v.consentGiven == (init.consentGiven == Some(true))
    ensures init.heightCm.None? <==> v.heightCm.NaN?
    ensures init.weightKg.None? <==> v.weightKg.NaN?
    ensures v.pseudonymizedId == "" <==> init.pseudonymizedId.None? || init.pseudonymizedId == Some("")
  {
    FormValues(
      init.pseudonymizedId.GetOr(""),
      init.ageRange,
      init.biologicalSex,
      if init.heightCm.Some? then NumField.Num(init.heightCm.value) else NumField.NaN,
      if init.weightKg.Some? then NumField.Num(init.weightKg.value) else NumField.NaN,
      init.consentGiven.GetOr(false))
  }

  /** A form submitted with its defaults is refused for consent unless the caller pre-set consent. */
  lemma UntouchedFormNeverValidates(init: InitialData)
    requires init.consentGiven.None?
    ensures Validate(Defaults(init)).Invalid?
    ensures ConsentMissing in Validate(Defaults(init)).errors
  {
  }

  /**
   * A form whose caller supplied no height or no weight is refused as written however the other
   * fields are filled in, unless the user types a measurement into that box; as intended, the
   * untouched box is simply absent.
   */
  lemma UntouchedMeasurementBlocks(init: InitialData)
    requires init.heightCm.None? || init.weightKg.None?
    ensures Validate(Defaults(init)).Invalid?
    ensures init.heightCm.None? ==> BadHeight in Validate(Defaults(init)).errors
    ensures init.weightKg.None? ==> BadWeight in Validate(Defaults(init)).errors
    ensures ValidateIntended(Defaults(init)).Valid? ==>
              ValidateIntended(Defaults(init)).data.heightCm == init.heightCm
              && ValidateIntended(Defaults(init)).data.weightKg == init.weightKg
  {
    EmptyMeasurementRejected(Defaults(init));
  }

  /** The form's state: its field values and the `generatedId` flag of the id effect. */
  class IntakeFormState {
    const initialData: InitialData
    var values: FormValues
    var generatedId: string
    ghost var generations: nat

    /** Generation happens at most once, and exactly when an id was generated. */
    ghost predicate Valid()
      reads this
    {
      generations <= 1 && (generations == 1 <==> generatedId != "")
    }

    constructor (init: InitialData)
      ensures Valid() && initialData == init && values == Defaults(init) && generatedId == "" && generations == 0
    {
      initialData := init;
      values := Defaults(init);
      generatedId := "";
      generations := 0;
    }

    /**
     * The id effect: without an initial id, and if none was generated yet, generate one from
     * the clock and `Math.random` text and put it in the id field.
     */
    method RunIdEffect(timestamp: nat, random: string)
      requires Valid()
      modifies this
      ensures Valid()
      ensures old(generations) == 1 ==> generations == 1 && generatedId == old(generatedId) && values == old(values)
      ensures (initialData.pseudonymizedId.Some? && initialData.pseudonymizedId.value != "") || old(generatedId) != "" ==>
                generatedId == old(generatedId) && values == old(values) && generations == old(generations)
      ensures !(initialData.pseudonymizedId.Some? && initialData.pseudonymizedId.value != "") && old(generatedId) == "" ==>
                && generatedId == Utils.GeneratePseudonymizedId(timestamp, random)
                && values == old(values).(pseudonymizedId := generatedId)
    {
      if !(initialData.pseudonymizedId.Some? && initialData.pseudonymizedId.value != "") && generatedId == "" {
        var newId := Utils.GeneratePseudonymizedId(timestamp, random);
        generatedId := newId;
        values := values.(pseudonymizedId := newId);
        generations := generations + 1;
      }
    }
  }
}
