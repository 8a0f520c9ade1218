/**
 * The clinical record shapes shared by the application (src/types/medical.ts), reduced to
 * the fields its logic reads or writes. Dates are millisecond timestamps; a JavaScript
 * number that the logic may see as NaN is given its own case where the code branches on it.
 */
module Medical {
  import opened Wrappers

  datatype AgeRange =
    | Age0To17 | Age18To29 | Age30To39 | Age40To49
    | Age50To59 | Age60To69 | Age70To79 | Age80Plus

  /** The record type allows four values; the intake form accepts only the first two. */
  datatype BiologicalSex = Male | Female | OtherSex | NotSpecified

  datatype Demographics = Demographics(
    ageRange: AgeRange,
    biologicalSex: BiologicalSex,
    heightCm: Option<real>,
    weightKg: Option<real>)

  datatype Patient = Patient(
    id: string,
    pseudonymizedId: string,
    demographics: Demographics,
    consentGiven: bool,
    createdAt: int)

  datatype ConditionStatus = Active | Resolved | Chronic

  datatype ExistingCondition = ExistingCondition(id: string, name: string, status: ConditionStatus)

  /** Allergies, medications, family history, surgeries and lifestyle are carried as opaque text. */
  datatype MedicalHistory = MedicalHistory(
    patientId: string,
    conditions: seq<ExistingCondition>,
    otherSections: seq<string>)

  datatype SymptomOnset = Sudden | Gradual | UnknownOnset

  datatype Symptom = Symptom(
    id: string,
    name: string,
    onset: SymptomOnset,
    duration: string,
    severity: int,
    nlpExtracted: bool)

  /** The optional measurements of a vital-signs record; `None` is an absent field. */
  datatype VitalSigns = VitalSigns(
    bloodPressureSystolic: Option<real>,
    bloodPressureDiastolic: Option<real>,
    heartRate: Option<real>,
    respiratoryRate: Option<real>,
    temperature: Option<real>,
    oxygenSaturation: Option<real>,
    glucoseLevel: Option<real>,
    recordedAt: int)

  /** The keys of `VitalSigns` that hold a measurement. */
  datatype VitalKey =
    | BloodPressureSystolic | BloodPressureDiastolic | HeartRate | RespiratoryRate
    | Temperature | OxygenSaturation | GlucoseLevel

  /** `vitals[key]`. */
  function GetVital(v: VitalSigns, key: VitalKey): Option<real> {
    match key
    case BloodPressureSystolic => v.bloodPressureSystolic
    case BloodPressureDiastolic => v.bloodPressureDiastolic
    case HeartRate => v.heartRate
    case RespiratoryRate => v.respiratoryRate
    case Temperature => v.temperature
    case OxygenSaturation => v.oxygenSaturation
    case GlucoseLevel => v.glucoseLevel
  }

  /** `{ ...vitals, [key]: value }`: one key replaced, every other field kept. */
  function SetVital(v: VitalSigns, key: VitalKey, value: Option<real>): (r: VitalSigns)
    ensures GetVital(r, key) == value
    ensures forall k :: k != key ==> GetVital(r, k) == GetVital(v, k)
    ensures r.recordedAt == v.recordedAt
  {
    match key
    case BloodPressureSystolic => v.(bloodPressureSystolic := value)
    case BloodPressureDiastolic => v.(bloodPressureDiastolic := value)
    case HeartRate => v.(heartRate := value)
    case RespiratoryRate => v.(respiratoryRate := value)
    case Temperature => v.(temperature := value)
    case OxygenSaturation => v.(oxygenSaturation := value)
    case GlucoseLevel => v.(glucoseLevel := value)
  }

  datatype EncounterStatus = InProgress | EncounterCompleted | Reviewed

  datatype ClinicalEncounter = ClinicalEncounter(
    id: string,
    patientId: string,
    chiefComplaint: string,
    symptoms: seq<Symptom>,
    vitals: VitalSigns,
    status: EncounterStatus)

  datatype ReferenceRange = ReferenceRange(low: Option<real>, high: Option<real>, text: Option<string>)

  datatype LabResultStatus = Normal | AbnormalLow | AbnormalHigh | CriticalLow | CriticalHigh

  /** A lab value is a number (possibly NaN, which `parseFloat` yields on bad input) or text. */
  datatype LabValue = Num(n: real) | NotANumber | Text(s: string)

  datatype LabResult = LabResult(
    id: string,
    testName: string,
    value: LabValue,
    unit: string,
    referenceRange: Option<ReferenceRange>,
    status: LabResultStatus)

  datatype PanelStatus = Pending | Partial | Complete

  datatype LaboratoryPanel = LaboratoryPanel(
    id: string,
    encounterId: string,
    panelName: string,
    collectedAt: int,
    results: seq<LabResult>,
    status: PanelStatus)

  datatype Probability = High | Moderate | Low

  datatype DifferentialDiagnosis = DifferentialDiagnosis(
    id: string,
    rank: int,
    condition: string,
    confidenceScore: real,
    probability: Probability)

  datatype RedFlagSeverity = Immediate | Urgent | Soon

  datatype RedFlag = RedFlag(
    id: string,
    severity: RedFlagSeverity,
    description: string,
    recommendedAction: string)

  datatype DiagnosticAnalysis = DiagnosticAnalysis(
    id: string,
    encounterId: string,
    differentialDiagnoses: seq<DifferentialDiagnosis>,
    redFlags: seq<RedFlag>)

  /** `CaseWorkflowStep`; `Recommendations` exists in the type but no wizard step uses it. */
  datatype CaseWorkflowStep =
    | PatientInfo | MedicalHistoryStep | SymptomsStep | VitalsStep
    | LabResultsStep | AnalysisStep | Recommendations
}
