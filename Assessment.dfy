/**
 * The new-assessment wizard (src/app/assessment/page.tsx). The page holds its state in
 * separate React state variables; here they are the fields of `Wizard`, and each event
 * handler is a method. An `async` handler is split at its `await`s into the state change
 * made before the request and the change made when the reply arrives; the setter calls
 * between two `await`s are applied together, as React batches them into one render.
 *
 * Navigation is specified by pure functions on `Nav` (the current step and the completed
 * list), with the invariant `NavValid` proved for each of them.
 */
module Assessment {
  import opened Wrappers
  import opened Medical
  import Loading = AnalysisLoading
  import Stepper
  import ListOps
  import SymptomInput
  import JsString
  import IntakeForm
  import AnalyzeRoute
  import ExtractRoute
  import WhatIfSandbox
  import Db

  // ---------------------------------------------------------------------------------------
  // Steps and navigation
  // ---------------------------------------------------------------------------------------

  /** The six wizard steps, in order. */
  const Steps: seq<CaseWorkflowStep> :=
    [PatientInfo, MedicalHistoryStep, SymptomsStep, VitalsStep, LabResultsStep, AnalysisStep]

  /** `currentStepIndex`: a step's position in `steps`, -1 for the one step the wizard lacks. */
  function Position(s: CaseWorkflowStep): (i: int)
    ensures -1 <= i < |Steps|
    ensures i >= 0 ==> Steps[i] == s
    ensures i == -1 <==> s !in Steps
  {
    match s
    case PatientInfo => 0
    case MedicalHistoryStep => 1
    case SymptomsStep => 2
    case VitalsStep => 3
    case LabResultsStep => 4
    case AnalysisStep => 5
    case Recommendations => -1
  }

  /** The step indicator finds each step at the same position. */
  lemma PositionIsFindIndex(s: CaseWorkflowStep)
    ensures Stepper.FindIndex(Steps, s) == Position(s)
  {
    var i := Stepper.FindIndex(Steps, s);
    if i >= 0 {
      assert Steps[i] == s;
    }
  }

  predicate NoDuplicates<T(==)>(s: seq<T>) {
    forall i, j :: 0 <= i < j < |s| ==> s[i] != s[j]
  }

  /** The navigation state: `currentStep` and `completedSteps`. */
  datatype Nav = Nav(current: CaseWorkflowStep, completed: seq<CaseWorkflowStep>)

  /**
   * What navigation keeps: the current step is a wizard step; the completed list holds
   * wizard steps, each once; every step before the current one is completed; and among the
   * first five steps, a completed step has all earlier ones completed too (the analysis step
   * is completed by a finished analysis, which can arrive on any step).
   */
  ghost predicate NavValid(n: Nav) {
    && n.current in Steps
    && NoDuplicates(n.completed)
    && (forall k :: 0 <= k < |n.completed| ==> n.completed[k] in Steps)
    && (forall i :: 0 <= i < Position(n.current) ==> Steps[i] in n.completed)
    && (forall i, j :: 0 <= i < j < |Steps| - 1 && Steps[j] in n.completed ==> Steps[i] in n.completed)
  }

  const InitialNav := Nav(PatientInfo, [])

  lemma InitialNavValid()
    ensures NavValid(InitialNav)
  {
  }

  /** `goToNextStep`: record the current step as completed (once), then move one step on; nothing at the last step. */
  function NextStep(n: Nav): (r: Nav)
    ensures n.completed <= r.completed
    ensures n.current in r.completed || r == n
    ensures Position(n.current) + 1 < |Steps| ==> r.current == Steps[Position(n.current) + 1]
    ensures Position(n.current) + 1 >= |Steps| ==> r == n
    ensures |r.completed| <= |n.completed| + 1
  {
    var i := Position(n.current);
    if i + 1 < |Steps| then
      Nav(Steps[i + 1], if n.current in n.completed then n.completed else n.completed + [n.current])
    else n
  }

  lemma NextStepKeepsValid(n: Nav)
    requires NavValid(n)
    ensures NavValid(NextStep(n))
  {
    var r := NextStep(n);
    var c := Position(n.current);
    if c + 1 < |Steps| {
      assert Position(r.current) == c + 1;
      forall i, j | 0 <= i < j < |Steps| - 1 && Steps[j] in r.completed
        ensures Steps[i] in r.completed
      {
        if Steps[j] !in n.completed {
          assert Steps[j] == n.current;
        }
      }
    }
  }

  /** Next never skips: it moves exactly one position, or stays at the last step. */
  lemma NextStepMovesByOne(n: Nav)
    requires NavValid(n)
    ensures Position(n.current) < |Steps| - 1 ==> Position(NextStep(n).current) == Position(n.current) + 1
    ensures Position(n.current) == |Steps| - 1 ==> NextStep(n) == n
  {
  }

  /** `goToPreviousStep`: one step back, never before the first; the completed list is untouched. */
  function PreviousStep(n: Nav): (r: Nav)
    ensures r.completed == n.completed
    ensures Position(n.current) > 0 ==> r.current == Steps[Position(n.current) - 1]
    ensures Position(n.current) <= 0 ==> r == n
  {
    var i := Position(n.current);
    if i - 1 >= 0 then n.(current := Steps[i - 1]) else n
  }

  lemma PreviousStepKeepsValid(n: Nav)
    requires NavValid(n)
    ensures NavValid(PreviousStep(n))
    ensures Position(PreviousStep(n).current) == if Position(n.current) > 0 then Position(n.current) - 1 else 0
  {
  }

  /** The page's own rule in `onStepClick`: not past the current step, or the step before the target is completed. */
  predicate PageAllowsJump(n: Nav, i: nat)
    requires i < |Steps|
    ensures i <= Position(n.current) ==> PageAllowsJump(n, i)
    ensures i > Position(n.current) ==> (PageAllowsJump(n, i) <==> i >= 1 && Steps[i - 1] in n.completed)
  {
    i <= Position(n.current) || (i >= 1 && Steps[i - 1] in n.completed)
  }

  /** A click on step `i`: the indicator must let it through, then the page's rule decides. */
  function ClickStep(n: Nav, i: nat): (r: Nav)
    requires i < |Steps|
    ensures r.completed == n.completed
    ensures r.current == n.current || r.current == Steps[i]
  {
    if Stepper.IsClickable(Steps, n.current, n.completed, i) && PageAllowsJump(n, i) then n.(current := Steps[i])
    else n
  }

  /**
   * A click is honoured exactly when the target is not after the current step, or the target
   * and the step before it are both completed; on the first five steps the second is implied.
   */
  lemma ClickHonouredIff(n: Nav, i: nat)
    requires NavValid(n) && i < |Steps|
    ensures i <= Position(n.current) ==> ClickStep(n, i).current == Steps[i]
    ensures i > Position(n.current) ==>
              (ClickStep(n, i).current == Steps[i] <==> Steps[i] in n.completed && Steps[i - 1] in n.completed)
    ensures i > Position(n.current) && i < |Steps| - 1 ==>
              (ClickStep(n, i).current == Steps[i] <==> Steps[i] in n.completed)
  {
    ClickReachesStep(n, i);
    if i > Position(n.current) && i < |Steps| - 1 && Steps[i] in n.completed {
      assert 0 <= i - 1 < i < |Steps| - 1;
    }
  }

  /** The two guards of a click together, before the navigation invariant is brought in. */
  lemma ClickReachesStep(n: Nav, i: nat)
    requires n.current in Steps && i < |Steps|
    ensures ClickStep(n, i).current == Steps[i] <==>
              i <= Position(n.current) || (Steps[i] in n.completed && Steps[i - 1] in n.completed)
  {
    PositionIsFindIndex(n.current);
    var c := Position(n.current);
    var clickable := Stepper.IsClickable(Steps, n.current, n.completed, i);
    assert clickable <==> Steps[i] in n.completed || i <= c;
    var r := ClickStep(n, i);
    if i <= c {
      assert r.current == Steps[i];
    } else {
      PositionOfStep(i);
      assert n.current != Steps[i];
      assert r.current == Steps[i] <==> clickable && PageAllowsJump(n, i);
    }
  }

  /** Each wizard step sits at one position only. */
  lemma PositionOfStep(i: nat)
    requires i < |Steps|
    ensures Position(Steps[i]) == i
  {
  }

  lemma ClickKeepsValid(n: Nav, i: nat)
    requires NavValid(n) && i < |Steps|
    ensures NavValid(ClickStep(n, i))
  {
    ClickHonouredIff(n, i);
    var r := ClickStep(n, i);
    if r.current == Steps[i] && i > Position(n.current) {
      assert Steps[i - 1] in n.completed;
      forall k | 0 <= k < i
        ensures Steps[k] in n.completed
      {
        if k < i - 1 {
          assert 0 <= k < i - 1 < |Steps| - 1;
        }
      }
    }
  }

  /** The step right after the current one cannot be reached by a click before it was completed. */
  lemma NextStepNeedsContinue(n: Nav)
    requires NavValid(n) && Position(n.current) + 1 < |Steps|
    requires Steps[Position(n.current) + 1] !in n.completed
    ensures ClickStep(n, Position(n.current) + 1) == n
  {
    ClickHonouredIff(n, Position(n.current) + 1);
  }

  /** A finished analysis adds the analysis step to the completed list, once. */
  function CompleteAnalysis(n: Nav): (r: Nav)
    ensures r.current == n.current
    ensures AnalysisStep in r.completed
    ensures n.completed <= r.completed && |r.completed| <= |n.completed| + 1
  {
    if AnalysisStep in n.completed then n else n.(completed := n.completed + [AnalysisStep])
  }

  lemma CompleteAnalysisKeepsValid(n: Nav)
    requires NavValid(n)
    ensures NavValid(CompleteAnalysis(n))
    ensures CompleteAnalysis(CompleteAnalysis(n)) == CompleteAnalysis(n)
  {
    var r := CompleteAnalysis(n);
    forall i, j | 0 <= i < j < |Steps| - 1 && Steps[j] in r.completed
      ensures Steps[i] in r.completed
    {
      assert Steps[j] in n.completed;
    }
  }

  /** Every step before the analysis step is completed, as on the analysis step itself. */
  predicate IntakeDone(n: Nav) {
    forall i :: 0 <= i < |Steps| - 1 ==> Steps[i] in n.completed
  }

  lemma AnalysisStepMeansIntakeDone(n: Nav)
    requires NavValid(n) && n.current == AnalysisStep
    ensures IntakeDone(n)
  {
  }

  /**
   * Once the intake is done, no navigation changes the completed list. So the list an
   * analysis run closed over when it started is still the current one when it finishes.
   */
  lemma NavigationKeepsCompleted(n: Nav, i: nat)
    requires NavValid(n) && IntakeDone(n) && i < |Steps|
    ensures NextStep(n).completed == n.completed && IntakeDone(NextStep(n))
    ensures PreviousStep(n).completed == n.completed && IntakeDone(PreviousStep(n))
    ensures ClickStep(n, i).completed == n.completed && IntakeDone(ClickStep(n, i))
  {
    if Position(n.current) + 1 < |Steps| {
      assert n.current == Steps[Position(n.current)];
    }
  }

  // ---------------------------------------------------------------------------------------
  // Merging extracted symptoms
  // ---------------------------------------------------------------------------------------

  /**
   * The update in `handleNlpExtract`: the current symptoms, then those extracted symptoms
   * whose lowercased name is not the lowercased name of a current one, in their order.
   */
  function MergeExtracted(prev: seq<Symptom>, extracted: seq<Symptom>): (r: seq<Symptom>)
    ensures |prev| <= |r| && r[..|prev|] == prev
    ensures forall x :: x in r[|prev|..] ==> x in extracted && !SymptomInput.HasName(prev, x.name)
    ensures forall k :: 0 <= k < |extracted| && !SymptomInput.HasName(prev, extracted[k].name) ==>
              extracted[k] in r[|prev|..]
    ensures ListOps.IsSubsequence(r[|prev|..], extracted)
  {
    var added := ListOps.Filter(extracted, (s: Symptom) => !SymptomInput.HasName(prev, s.name));
    assert (prev + added)[..|prev|] == prev;
    assert (prev + added)[|prev|..] == added;
    prev + added
  }

  /** After a merge every extracted name is known, so merging the same reply again adds nothing. */
  lemma MergeIdempotent(prev: seq<Symptom>, extracted: seq<Symptom>)
    ensures MergeExtracted(MergeExtracted(prev, extracted), extracted) == MergeExtracted(prev, extracted)
  {
    var m := MergeExtracted(prev, extracted);
    var p := (s: Symptom) => !SymptomInput.HasName(m, s.name);
    forall k | 0 <= k < |extracted|
      ensures !p(extracted[k])
    {
      if SymptomInput.HasName(prev, extracted[k].name) {
        var i :| 0 <= i < |prev| && SymptomInput.SameName(prev[i].name, extracted[k].name);
        assert m[i] == prev[i];
      } else {
        assert extracted[k] in m[|prev|..];
        var j :| 0 <= j < |m[|prev|..]| && m[|prev|..][j] == extracted[k];
        assert m[|prev| + j] == extracted[k];
      }
    }
    ListOps.FilterDropsAll(extracted, p);
    assert m + [] == m;
  }

  /** Merging a reply with unique names into a list with unique names keeps names unique. */
  lemma MergeKeepsNamesUnique(prev: seq<Symptom>, extracted: seq<Symptom>)
    requires SymptomInput.NamesUnique(prev) && SymptomInput.NamesUnique(extracted)
    ensures SymptomInput.NamesUnique(MergeExtracted(prev, extracted))
  {
    var r := MergeExtracted(prev, extracted);
    var added := r[|prev|..];
    SymptomInput.SubsequenceKeepsNamesUnique(added, extracted);
    forall i, j | 0 <= i < j < |r|
      ensures !SymptomInput.SameName(r[i].name, r[j].name)
    {
      if j < |prev| {
        assert r[i] == prev[i] && r[j] == prev[j];
      } else if i < |prev| {
        assert r[j] == added[j - |prev|];
        assert r[i] == prev[i];
      } else {
        assert r[i] == added[i - |prev|] && r[j] == added[j - |prev|];
      }
    }
  }

  /** The merge only compares against the current list: two spellings in one reply are both added. */
  lemma MergeKeepsDuplicatesWithinReply()
    ensures var a := Symptom("s1", "Fever", UnknownOnset, "", 5, true);
            var b := Symptom("s2", "fever", UnknownOnset, "", 5, true);
            MergeExtracted([], [a, b]) == [a, b] && !SymptomInput.NamesUnique([a, b])
  {
    var a := Symptom("s1", "Fever", UnknownOnset, "", 5, true);
    var b := Symptom("s2", "fever", UnknownOnset, "", 5, true);
    var newName := (s: Symptom) => !SymptomInput.HasName([], s.name);
    assert newName(a) && newName(b);
    assert ListOps.Filter([b], newName) == [b] by {
      assert [b][1..] == [];
    }
    assert ListOps.Filter([a, b], newName) == [a, b] by {
      assert [a, b][1..] == [b];
    }
    assert [] + [a, b] == [a, b];
    FeverIsFever();
  }

  /** "Fever" and "fever" are the same name once lower-cased. */
  lemma FeverIsFever()
    ensures SymptomInput.SameName("Fever", "fever")
  {
    var lower := JsString.ToLower("Fever");
    assert lower[0] == 'f';
    assert lower == "fever";
    assert JsString.ToLower("fever") == "fever";
  }

  // ---------------------------------------------------------------------------------------
  // Records the handlers build
  // ---------------------------------------------------------------------------------------

  /** `handlePatientSubmit`'s record; the form's two sexes map onto the record's. */
  function NewPatient(data: IntakeForm.PatientIntakeData, newId: string, now: int): (p: Patient)
    ensures p.id == newId && p.pseudonymizedId == data.pseudonymizedId && p.consentGiven == data.consentGiven
    ensures p.demographics.ageRange == data.ageRange
    ensures p.demographics.heightCm == data.heightCm && p.demographics.weightKg == data.weightKg
    ensures p.demographics.biologicalSex == Male <==> data.biologicalSex == IntakeForm.IntakeMale
    ensures p.demographics.biologicalSex == Male || p.demographics.biologicalSex == Female
  {
    Patient(newId, data.pseudonymizedId,
            Demographics(data.ageRange,
                         if data.biologicalSex == IntakeForm.IntakeMale then Male else Female,
                         data.heightCm, data.weightKg),
            data.consentGiven, now)
  }

  /** A patient admitted through the intake form has consented. */
  lemma IntakePatientConsented(v: IntakeForm.FormValues, newId: string, now: int)
    requires IntakeForm.ValidateIntended(v).Valid?
    ensures NewPatient(IntakeForm.ValidateIntended(v).data, newId, now).consentGiven
  {
  }

  /** `{ ...vitals, recordedAt: new Date() }`. */
  function Stamp(v: VitalSigns, now: int): (s: VitalSigns)
    ensures s.recordedAt == now
    ensures forall k :: GetVital(s, k) == GetVital(v, k)
  {
    v.(recordedAt := now)
  }

  /** The single panel of `handleLabResultsSubmit`. */
  function ClinicalTestsPanel(newId: string, encounter: Option<ClinicalEncounter>, results: seq<LabResult>,
                              now: int): (p: LaboratoryPanel)
    ensures p.results == results && p.status == Complete && p.panelName == "Clinical Tests"
    ensures p.encounterId == (if encounter.Some? then encounter.value.id else "")
    ensures p.id == newId && p.collectedAt == now
  {
    LaboratoryPanel(newId, if encounter.Some? then encounter.value.id else "", "Clinical Tests", now, results, Complete)
  }

  /**
   * What the analysis handler sees when it runs: the values of the render that created it
   * (a handler closes over the state of one render).
   */
  datatype RunClosure = RunClosure(
    patient: Option<Patient>,
    encounter: Option<ClinicalEncounter>,
    symptoms: seq<Symptom>,
    vitals: VitalSigns,
    history: Option<MedicalHistory>,
    labPanels: seq<LaboratoryPanel>)

  /**
   * The body `runAnalysis` posts to the analysis route, or `None` when it returns early
   * for want of a patient or an encounter. The encounter carries the current symptoms and
   * the vitals restamped.
   */
  function RequestBody(c: RunClosure, now: int): (b: Option<AnalyzeRoute.AnalyzeBody>)
    ensures b.Some? <==> c.patient.Some? && c.encounter.Some?
    ensures b.Some? ==>
              && b.value.Parsed?
              && b.value.patient == AnalyzeRoute.PatientValue(c.patient.value)
              && b.value.encounter.Some?
              && b.value.encounter.value.id == c.encounter.value.id
              && b.value.encounter.value.symptoms == c.symptoms
              && b.value.encounter.value.vitals == Stamp(c.vitals, now)
              && b.value.history == c.history
              && b.value.labResults == Some(c.labPanels)
  {
    if c.patient.None? || c.encounter.None? then None
    else
      Some(AnalyzeRoute.Parsed(AnalyzeRoute.PatientValue(c.patient.value),
                               Some(c.encounter.value.(symptoms := c.symptoms, vitals := Stamp(c.vitals, now))),
                               c.history, Some(c.labPanels)))
  }

  /**
   * The wizard's request passes the route's validation whenever its patient consented: it
   * is turned away only by the rate limit or a missing key.
   */
  lemma ConsentedRequestAdmissible(c: RunClosure, now: int, allowed: bool, apiKey: Option<string>)
    requires c.patient.Some? && c.encounter.Some? && c.patient.value.consentGiven
    ensures AnalyzeRoute.Admissible(allowed, RequestBody(c, now).value, apiKey) <==>
              allowed && AnalyzeRoute.KeyPresent(apiKey)
  {
  }

  /** How the analysis request ended: the route's response, or a thrown fetch or JSON error with its message. */
  datatype AnalyzeReply = Replied(response: AnalyzeRoute.AnalysisResponse) | RequestFailed(message: string)

  /** The message `runAnalysis` records for a reply: none on success. */
  function FailureMessage(reply: AnalyzeReply): (m: Option<string>)
    ensures m.None? <==> reply.Replied? && reply.response.Success?
    ensures reply.Replied? && reply.response.Failure? && reply.response.message != "" ==> m == Some(reply.response.message)
    ensures reply.Replied? && reply.response.Failure? && reply.response.message == "" ==> m == Some("Analysis failed")
    ensures reply.RequestFailed? ==> m == Some(reply.message)
  {
    match reply
    case Replied(response) =>
      if response.Success? then None
      else Some(if response.message != "" then response.message else "Analysis failed")
    case RequestFailed(message) => Some(message)
  }

  /** Every failure response of the route reaches the page with its own message. */
  lemma RouteFailuresKeepTheirMessage(allowed: bool, body: AnalyzeRoute.AnalyzeBody, apiKey: Option<string>,
                                      outcome: AnalyzeRoute.AnalysisOutcome, elapsed: int, requestId: string)
    ensures var response := AnalyzeRoute.Respond(allowed, body, apiKey, outcome, elapsed, requestId).response;
            response.Failure? ==> FailureMessage(Replied(response)) == Some(response.message)
  {
  }

  /** How the symptom extraction request ended. */
  datatype ExtractReply = ExtractReplied(response: ExtractRoute.ExtractResponse) | ExtractRequestFailed

  /** What the analysis step shows above its buttons. */
  datatype AnalysisPanel =
    | ReadyToAnalyze
    | LoadingPanel(view: Loading.LoadingView)
    | ResultsPanel(analysis: DiagnosticAnalysis)

  /** The five boxes of the vitals step; respiratory rate and glucose have none. */
  const VitalBoxes: set<VitalKey> := {HeartRate, BloodPressureSystolic, BloodPressureDiastolic, Temperature, OxygenSaturation}

  const SaveFailedMessage := "Failed to save case. Please check connection and try again."

  // ---------------------------------------------------------------------------------------
  // The page state
  // ---------------------------------------------------------------------------------------

  class Wizard {
    var currentStep: CaseWorkflowStep
    var completedSteps: seq<CaseWorkflowStep>
    var patient: Option<Patient>
    var encounter: Option<ClinicalEncounter>
    var medicalHistory: Option<MedicalHistory>
    var labPanels: seq<LaboratoryPanel>
    var symptoms: seq<Symptom>
    var chiefComplaint: string
    var labResults: seq<LabResult>
    /** The vitals being entered; `recordedAt` is set when a record is built from them. */
    var vitals: VitalSigns
    var conditions: seq<ExistingCondition>
    var analysis: Option<DiagnosticAnalysis>
    var analysisStage: Loading.AnalysisStage
    var analysisError: Option<string>
    var isAnalyzing: bool
    var isExtractingSymptoms: bool
    var isSaving: bool
    var saveSuccess: bool
    var saveError: Option<string>

    function NavState(): Nav
      reads this
    {
      Nav(currentStep, completedSteps)
    }

    /** Navigation is valid, and while an analysis runs the stage is one that was rendered as running. */
    ghost predicate Valid()
      reads this
    {
      && NavValid(NavState())
      && (isAnalyzing ==> analysisStage == Loading.Analyzing || analysisStage == Loading.Processing)
    }

    twostate predicate CaseKept()
      reads this
    {
      patient == old(patient) && encounter == old(encounter)
      && medicalHistory == old(medicalHistory) && labPanels == old(labPanels)
    }

    twostate predicate InputsKept()
      reads this
    {
      symptoms == old(symptoms) && chiefComplaint == old(chiefComplaint) && labResults == old(labResults)
      && vitals == old(vitals) && conditions == old(conditions)
    }

    twostate predicate RunKept()
      reads this
    {
      analysis == old(analysis) && analysisStage == old(analysisStage) && analysisError == old(analysisError)
      && isAnalyzing == old(isAnalyzing) && isExtractingSymptoms == old(isExtractingSymptoms)
    }

    twostate predicate SaveKept()
      reads this
    {
      isSaving == old(isSaving) && saveSuccess == old(saveSuccess) && saveError == old(saveError)
    }

    twostate predicate NavKept()
      reads this
    {
      currentStep == old(currentStep) && completedSteps == old(completedSteps)
    }

    /** The initial values of every state variable. */
    constructor ()
      ensures Valid()
      ensures NavState() == InitialNav
      ensures patient.None? && encounter.None? && medicalHistory.None? && labPanels == []
      ensures symptoms == [] && chiefComplaint == "" && labResults == [] && conditions == []
      ensures vitals == VitalSigns(None, None, None, None, None, None, None, 0)
      ensures analysis.None? && analysisStage == Loading.Preparing && analysisError.None? && !isAnalyzing
      ensures !isExtractingSymptoms && !isSaving && !saveSuccess && saveError.None?
    {
      currentStep := PatientInfo;
      completedSteps := [];
      patient := None;
      encounter := None;
      medicalHistory := None;
      labPanels := [];
      symptoms := [];
      chiefComplaint := "";
      labResults := [];
      vitals := VitalSigns(None, None, None, None, None, None, None, 0);
      conditions := [];
      analysis := None;
      analysisStage := Loading.Preparing;
      analysisError := None;
      isAnalyzing := false;
      isExtractingSymptoms := false;
      isSaving := false;
      saveSuccess := false;
      saveError := None;
    }

    method GoToNextStep()
      requires Valid()
      modifies this
      ensures Valid()
      ensures NavState() == NextStep(old(NavState()))
      ensures CaseKept() && InputsKept() && RunKept() && SaveKept()
    {
      NextStepKeepsValid(NavState());
      var nextIndex := Position(currentStep) + 1;
      if nextIndex < |Steps| {
        if currentStep !in completedSteps {
          completedSteps := completedSteps + [currentStep];
        }
        currentStep := Steps[nextIndex];
      }
    }

    method GoToPreviousStep()
      requires Valid()
      modifies this
      ensures Valid()
      ensures NavState() == PreviousStep(old(NavState()))
      ensures CaseKept() && InputsKept() && RunKept() && SaveKept()
    {
      PreviousStepKeepsValid(NavState());
      var prevIndex := Position(currentStep) - 1;
      if prevIndex >= 0 {
        currentStep := Steps[prevIndex];
      }
    }

    /** A click on indicator `i`: the indicator's gate, then `onStepClick`. */
    method StepClicked(i: nat)
      requires Valid() && i < |Steps|
      modifies this
      ensures Valid()
      ensures NavState() == ClickStep(old(NavState()), i)
      ensures CaseKept() && InputsKept() && RunKept() && SaveKept()
    {
      ClickKeepsValid(NavState(), i);
      PositionOfStep(i);
      var target := Stepper.Click(Steps, currentStep, completedSteps, i);
      if target.Some? {
        var stepIndex := Position(target.value);
        assert stepIndex == i;
        if stepIndex <= Position(currentStep) || (stepIndex >= 1 && Steps[stepIndex - 1] in completedSteps) {
          currentStep := target.value;
        }
      }
    }

    method HandlePatientSubmit(data: IntakeForm.PatientIntakeData, newId: string, now: int)
      requires Valid()
      modifies this
      ensures Valid()
      ensures patient == Some(NewPatient(data, newId, now))
      ensures NavState() == NextStep(old(NavState()))
      ensures encounter == old(encounter) && medicalHistory == old(medicalHistory) && labPanels == old(labPanels)
      ensures InputsKept() && RunKept() && SaveKept()
    {
      patient := Some(NewPatient(data, newId, now));
      GoToNextStep();
    }

    /** Without a patient nothing happens; otherwise the history is recorded and the wizard moves on. */
    method HandleMedicalHistorySubmit()
      requires Valid()
      modifies this
      ensures Valid()
      ensures old(patient).None? ==> unchanged(this)
      ensures old(patient).Some? ==>
                && medicalHistory == Some(MedicalHistory(old(patient).value.id, old(conditions), []))
                && NavState() == NextStep(old(NavState()))
                && patient == old(patient) && encounter == old(encounter) && labPanels == old(labPanels)
      ensures InputsKept() && RunKept() && SaveKept()
    {
      if patient.None? {
        return;
      }
      medicalHistory := Some(MedicalHistory(patient.value.id, conditions, []));
      GoToNextStep();
    }

    /** Without a patient nothing happens; otherwise a new in-progress encounter is recorded. */
    method HandleSymptomsSubmit(newId: string, now: int)
      requires Valid()
      modifies this
      ensures Valid()
      ensures old(patient).None? ==> unchanged(this)
      ensures old(patient).Some? ==>
                && encounter == Some(ClinicalEncounter(newId, old(patient).value.id, old(chiefComplaint),
                                                       old(symptoms), Stamp(old(vitals), now), InProgress))
                && NavState() == NextStep(old(NavState()))
                && patient == old(patient) && medicalHistory == old(medicalHistory) && labPanels == old(labPanels)
      ensures InputsKept() && RunKept() && SaveKept()
    {
      if patient.None? {
        return;
      }
      encounter := Some(ClinicalEncounter(newId, patient.value.id, chiefComplaint, symptoms, Stamp(vitals, now), InProgress));
      GoToNextStep();
    }

    /** The symptoms step's Continue button is disabled with neither a complaint nor a symptom. */
    predicate SymptomsContinueEnabled()
      reads this
      ensures SymptomsContinueEnabled() <==> chiefComplaint != "" || symptoms != []
    {
      !(chiefComplaint == "" && |symptoms| == 0)
    }

    /** The vitals replace the encounter's, if there is one; the wizard moves on either way. */
    method HandleVitalsSubmit(now: int)
      requires Valid()
      modifies this
      ensures Valid()
      ensures encounter == if old(encounter).Some? then Some(old(encounter).value.(vitals := Stamp(old(vitals), now))) else None
      ensures NavState() == NextStep(old(NavState()))
      ensures patient == old(patient) && medicalHistory == old(medicalHistory) && labPanels == old(labPanels)
      ensures InputsKept() && RunKept() && SaveKept()
    {
      if encounter.Some? {
        encounter := Some(encounter.value.(vitals := Stamp(vitals, now)));
      }
      GoToNextStep();
    }

    /** A non-empty result list becomes the only panel; an empty one leaves the panels; the wizard moves on either way. */
    method HandleLabResultsSubmit(newId: string, now: int)
      requires Valid()
      modifies this
      ensures Valid()
      ensures |old(labResults)| > 0 ==> labPanels == [ClinicalTestsPanel(newId, old(encounter), old(labResults), now)]
      ensures |old(labResults)| == 0 ==> labPanels == old(labPanels)
      ensures NavState() == NextStep(old(NavState()))
      ensures patient == old(patient) && encounter == old(encounter) && medicalHistory == old(medicalHistory)
      ensures InputsKept() && RunKept() && SaveKept()
    {
      if |labResults| > 0 {
        labPanels := [ClinicalTestsPanel(newId, encounter, labResults, now)];
      }
      GoToNextStep();
    }

    /** The children's change callbacks: `setSymptoms`, `setChiefComplaint`, `setLabResults`. */
    method SetSymptoms(s: seq<Symptom>)
      modifies this
      ensures symptoms == s
      ensures chiefComplaint == old(chiefComplaint) && labResults == old(labResults)
      ensures vitals == old(vitals) && conditions == old(conditions)
      ensures NavKept() && CaseKept() && RunKept() && SaveKept()
    {
      symptoms := s;
    }

    method SetChiefComplaint(text: string)
      modifies this
      ensures chiefComplaint == text
      ensures symptoms == old(symptoms) && labResults == old(labResults)
      ensures vitals == old(vitals) && conditions == old(conditions)
      ensures NavKept() && CaseKept() && RunKept() && SaveKept()
    {
      chiefComplaint := text;
    }

    method SetLabResults(r: seq<LabResult>)
      modifies this
      ensures labResults == r
      ensures symptoms == old(symptoms) && chiefComplaint == old(chiefComplaint)
      ensures vitals == old(vitals) && conditions == old(conditions)
      ensures NavKept() && CaseKept() && RunKept() && SaveKept()
    {
      labResults := r;
    }

    /** A vitals box edited: `{ ...vitals, [key]: Number(text) }`, an empty box giving 0. */
    method SetVitalInput(key: VitalKey, typed: Option<real>)
      requires key in VitalBoxes
      modifies this
      ensures vitals == SetVital(old(vitals), key, Some(WhatIfSandbox.BoxNumber(typed)))
      ensures symptoms == old(symptoms) && chiefComplaint == old(chiefComplaint)
      ensures labResults == old(labResults) && conditions == old(conditions)
      ensures NavKept() && CaseKept() && RunKept() && SaveKept()
    {
      vitals := SetVital(vitals, key, Some(WhatIfSandbox.BoxNumber(typed)));
    }

    /** "+ Add Condition": a new active condition with an empty name at the end. */
    method AddCondition(newId: string)
      modifies this
      ensures conditions == old(conditions) + [ExistingCondition(newId, "", Active)]
      ensures symptoms == old(symptoms) && chiefComplaint == old(chiefComplaint)
      ensures labResults == old(labResults) && vitals == old(vitals)
      ensures NavKept() && CaseKept() && RunKept() && SaveKept()
    {
      conditions := conditions + [ExistingCondition(newId, "", Active)];
    }

    /** "×" on row `i`: `conditions.filter((_, idx) => idx !== i)`. */
    method RemoveCondition(i: nat)
      modifies this
      ensures i < |old(conditions)| ==>
                && |conditions| == |old(conditions)| - 1
                && (forall k :: 0 <= k < i ==> conditions[k] == old(conditions)[k])
                && (forall k :: i <= k < |conditions| ==> conditions[k] == old(conditions)[k + 1])
      ensures i >= |old(conditions)| ==> conditions == old(conditions)
      ensures symptoms == old(symptoms) && chiefComplaint == old(chiefComplaint)
      ensures labResults == old(labResults) && vitals == old(vitals)
      ensures NavKept() && CaseKept() && RunKept() && SaveKept()
    {
      if i < |conditions| {
        conditions := conditions[..i] + conditions[i + 1..];
      }
    }

    /** Typing in row `i`: that condition's name replaced, every other field and row kept. */
    method RenameCondition(i: nat, name: string)
      modifies this
      ensures |conditions| == |old(conditions)|
      ensures i < |conditions| ==> conditions[i] == old(conditions)[i].(name := name)
      ensures forall k :: 0 <= k < |conditions| && k != i ==> conditions[k] == old(conditions)[k]
      ensures symptoms == old(symptoms) && chiefComplaint == old(chiefComplaint)
      ensures labResults == old(labResults) && vitals == old(vitals)
      ensures NavKept() && CaseKept() && RunKept() && SaveKept()
    {
      if i < |conditions| {
        conditions := conditions[i := conditions[i].(name := name)];
      }
    }

    /** `handleNlpExtract` before its request: extraction marked running, the text posted. */
    method BeginNlpExtract(text: string) returns (body: ExtractRoute.ExtractBody)
      requires Valid()
      modifies this
      ensures Valid()
      ensures body == ExtractRoute.TextValue(text)
      ensures isExtractingSymptoms
      ensures analysis == old(analysis) && analysisStage == old(analysisStage)
      ensures analysisError == old(analysisError) && isAnalyzing == old(isAnalyzing)
      ensures NavKept() && CaseKept() && InputsKept() && SaveKept()
    {
      isExtractingSymptoms := true;
      body := ExtractRoute.TextValue(text);
    }

    /** `handleNlpExtract` after its request: a successful reply is merged into the symptoms; extraction stops either way. */
    method FinishNlpExtract(reply: ExtractReply)
      requires Valid()
      modifies this
      ensures Valid()
      ensures reply.ExtractReplied? && reply.response.Success? ==>
                symptoms == MergeExtracted(old(symptoms), reply.response.symptoms)
      ensures !(reply.ExtractReplied? && reply.response.Success?) ==> symptoms == old(symptoms)
      ensures !isExtractingSymptoms
      ensures chiefComplaint == old(chiefComplaint) && labResults == old(labResults)
      ensures vitals == old(vitals) && conditions == old(conditions)
      ensures analysis == old(analysis) && analysisStage == old(analysisStage)
      ensures analysisError == old(analysisError) && isAnalyzing == old(isAnalyzing)
      ensures NavKept() && CaseKept() && SaveKept()
    {
      if reply.ExtractReplied? && reply.response.Success? {
        symptoms := MergeExtracted(symptoms, reply.response.symptoms);
      }
      isExtractingSymptoms := false;
    }

    /** The values the analysis handler of the current render sees. */
    function Closure(): RunClosure
      reads this
    {
      RunClosure(patient, encounter, symptoms, vitals, medicalHistory, labPanels)
    }

    /**
     * `runAnalysis`, as created in the render whose values are `c`, up to its request:
     * without a patient and an encounter nothing happens; otherwise the run is marked as
     * analyzing (the `preparing` stage set just before is never rendered) and the body posted.
     */
    method BeginAnalysisWith(c: RunClosure, now: int) returns (request: Option<AnalyzeRoute.AnalyzeBody>)
      requires Valid()
      modifies this
      ensures Valid()
      ensures request == RequestBody(c, now)
      ensures request.None? ==> unchanged(this)
      ensures request.Some? ==> isAnalyzing && analysisStage == Loading.Analyzing && analysisError.None?
      ensures analysis == old(analysis) && isExtractingSymptoms == old(isExtractingSymptoms)
      ensures NavKept() && CaseKept() && InputsKept() && SaveKept()
    {
      if c.patient.None? || c.encounter.None? {
        return None;
      }
      isAnalyzing := true;
      analysisStage := Loading.Analyzing;
      analysisError := None;
      request := RequestBody(c, now);
    }

    /** "Run Clinical Analysis": the handler of the current render. */
    method BeginAnalysis(now: int) returns (request: Option<AnalyzeRoute.AnalyzeBody>)
      requires Valid()
      modifies this
      ensures Valid()
      ensures request == RequestBody(old(Closure()), now)
      ensures request.None? ==> unchanged(this)
      ensures request.Some? ==> isAnalyzing && analysisStage == Loading.Analyzing && analysisError.None?
      ensures analysis == old(analysis) && isExtractingSymptoms == old(isExtractingSymptoms)
      ensures NavKept() && CaseKept() && InputsKept() && SaveKept()
    {
      request := BeginAnalysisWith(Closure(), now);
    }

    /** The response arrived, before its body is read: stage `processing`. */
    method ResponseArrived()
      requires Valid()
      modifies this
      ensures Valid()
      ensures analysisStage == Loading.Processing
      ensures analysis == old(analysis) && analysisError == old(analysisError)
      ensures isAnalyzing == old(isAnalyzing) && isExtractingSymptoms == old(isExtractingSymptoms)
      ensures NavKept() && CaseKept() && InputsKept() && SaveKept()
    {
      analysisStage := Loading.Processing;
    }

    /**
     * The end of `runAnalysis`: a success stores the analysis, sets stage `complete` and
     * completes the analysis step once; anything else records its message and sets stage
     * `error`, keeping any earlier analysis. The run stops either way.
     */
    method FinishAnalysis(reply: AnalyzeReply)
      requires Valid()
      modifies this
      ensures Valid()
      ensures !isAnalyzing
      ensures analysisError == (if FailureMessage(reply).None? then old(analysisError) else FailureMessage(reply))
      ensures FailureMessage(reply).None? ==>
                && analysis == Some(reply.response.analysis)
                && analysisStage == Loading.Complete
                && NavState() == CompleteAnalysis(old(NavState()))
      ensures FailureMessage(reply).Some? ==>
                analysis == old(analysis) && analysisStage == Loading.Error && NavKept()
      ensures isExtractingSymptoms == old(isExtractingSymptoms)
      ensures CaseKept() && InputsKept() && SaveKept()
    {
      var failure := FailureMessage(reply);
      if failure.None? {
        StoreAnalysis(reply.response.analysis);
      } else {
        RecordFailure(failure.value);
      }
    }

    /** The success path of `runAnalysis`: store, complete the analysis step, stop. */
    method StoreAnalysis(a: DiagnosticAnalysis)
      requires Valid()
      modifies this
      ensures Valid()
      ensures !isAnalyzing && analysis == Some(a) && analysisStage == Loading.Complete
      ensures NavState() == CompleteAnalysis(old(NavState()))
      ensures analysisError == old(analysisError) && isExtractingSymptoms == old(isExtractingSymptoms)
      ensures CaseKept() && InputsKept() && SaveKept()
    {
      CompleteAnalysisKeepsValid(NavState());
      analysis := Some(a);
      analysisStage := Loading.Complete;
      completedSteps := CompleteAnalysis(NavState()).completed;
      isAnalyzing := false;
    }

    /** The failure path of `runAnalysis`: record the message, stop, keep the earlier analysis. */
    method RecordFailure(message: string)
      requires Valid()
      modifies this
      ensures Valid()
      ensures !isAnalyzing && analysisError == Some(message) && analysisStage == Loading.Error
      ensures analysis == old(analysis) && NavKept() && isExtractingSymptoms == old(isExtractingSymptoms)
      ensures CaseKept() && InputsKept() && SaveKept()
    {
      analysisError := Some(message);
      analysisStage := Loading.Error;
      isAnalyzing := false;
    }

    /** The analysis step as written: ready, the loading view while running, else the results. */
    function AnalysisPanelAsWritten(): (p: AnalysisPanel)
      reads this
      ensures p.LoadingPanel? <==> isAnalyzing
      ensures p.ReadyToAnalyze? <==> !isAnalyzing && analysis.None?
      ensures p.ResultsPanel? ==> analysis == Some(p.analysis)
    {
      if !isAnalyzing && analysis.None? then ReadyToAnalyze
      else if isAnalyzing then
        LoadingPanel(Loading.Render(analysisStage,
                                    if analysisError.Some? && analysisError.value != "" then analysisError else None,
                                    true))
      else ResultsPanel(analysis.value)
    }

    /** The analysis step showing the failure view after a failed run, and otherwise as written. */
    function AnalysisPanel(): (p: AnalysisPanel)
      reads this
      ensures p.LoadingPanel? <==> isAnalyzing || analysisStage == Loading.Error
      ensures p.ReadyToAnalyze? <==> !isAnalyzing && analysisStage != Loading.Error && analysis.None?
      ensures p.ResultsPanel? ==> analysis == Some(p.analysis)
    {
      if isAnalyzing || analysisStage == Loading.Error then
        LoadingPanel(Loading.Render(analysisStage,
                                    if analysisError.Some? && analysisError.value != "" then analysisError else None,
                                    true))
      else if analysis.None? then ReadyToAnalyze
      else ResultsPanel(analysis.value)
    }

    /** `onSimulate` as written: the vitals are set, and a timer will run the handler of the current render. */
    method SimulateAsWritten(newVitals: VitalSigns) returns (timer: RunClosure)
      modifies this
      ensures vitals == newVitals
      ensures timer == old(Closure())
      ensures symptoms == old(symptoms) && chiefComplaint == old(chiefComplaint)
      ensures labResults == old(labResults) && conditions == old(conditions)
      ensures NavKept() && CaseKept() && RunKept() && SaveKept()
    {
      timer := Closure();
      vitals := newVitals;
    }

    /** `onSimulate` with the run given the simulated vitals. */
    method Simulate(newVitals: VitalSigns) returns (timer: RunClosure)
      modifies this
      ensures vitals == newVitals
      ensures timer == Closure()
      ensures symptoms == old(symptoms) && chiefComplaint == old(chiefComplaint)
      ensures labResults == old(labResults) && conditions == old(conditions)
      ensures NavKept() && CaseKept() && RunKept() && SaveKept()
    {
      vitals := newVitals;
      timer := Closure();
    }

    /** `handleSaveCase` up to its write: without a patient, an encounter and an analysis nothing happens. */
    method BeginSave(now: int) returns (write: Option<Db.SavedCase>)
      requires Valid()
      modifies this
      ensures Valid()
      ensures write.Some? <==> old(patient).Some? && old(encounter).Some? && old(analysis).Some?
      ensures write.None? ==> unchanged(this)
      ensures write.Some? ==>
                && patient.Some? && encounter.Some? && analysis.Some?
                && write.value == Db.BuildCaseData(patient.value, encounter.value, medicalHistory, labPanels,
                                                   analysis.value, now)
                && isSaving && saveError.None? && saveSuccess == old(saveSuccess)
      ensures write.Some? ==> !SaveEnabled()
      ensures NavKept() && CaseKept() && InputsKept() && RunKept()
    {
      if patient.None? || encounter.None? || analysis.None? {
        return None;
      }
      isSaving := true;
      saveError := None;
      write := Some(Db.BuildCaseData(patient.value, encounter.value, medicalHistory, labPanels, analysis.value, now));
    }

    /** The end of `handleSaveCase`: success (and a 3-second timer to clear it) or the page's own failure message. */
    method FinishSave(result: Db.SaveResult) returns (startsTimer: bool)
      requires Valid()
      modifies this
      ensures Valid()
      ensures !isSaving
      ensures startsTimer <==> result.SavedAs?
      ensures result.SavedAs? ==> saveSuccess && saveError == old(saveError)
      ensures result.SaveFailed? ==> saveError == Some(SaveFailedMessage) && saveSuccess == old(saveSuccess)
      ensures result.SavedAs? ==> !SaveEnabled()
      ensures result.SaveFailed? ==> (SaveEnabled() <==> analysis.Some? && !saveSuccess)
      ensures NavKept() && CaseKept() && InputsKept() && RunKept()
    {
      if result.SavedAs? {
        saveSuccess := true;
        startsTimer := true;
      } else {
        saveError := Some(SaveFailedMessage);
        startsTimer := false;
      }
      isSaving := false;
    }

    method SaveTimerFired()
      requires Valid()
      modifies this
      ensures Valid()
      ensures !saveSuccess && isSaving == old(isSaving) && saveError == old(saveError)
      ensures SaveEnabled() <==> analysis.Some? && !isSaving
      ensures NavKept() && CaseKept() && InputsKept() && RunKept()
    {
      saveSuccess := false;
    }

    /** The Save Case button: shown with an analysis, disabled while saving or just saved. */
    predicate SaveEnabled()
      reads this
      ensures SaveEnabled() ==> analysis.Some?
      ensures isSaving || saveSuccess ==> !SaveEnabled()
      ensures analysis.Some? && !isSaving && !saveSuccess ==> SaveEnabled()
    {
      analysis.Some? && !(isSaving || saveSuccess)
    }
  }

  // ---------------------------------------------------------------------------------------
  // Properties of the page state
  // ---------------------------------------------------------------------------------------

  /** As written, the loading view is only shown while running, and then never as the failure view. */
  lemma FailureViewUnreachable(w: Wizard)
    requires w.Valid()
    ensures w.AnalysisPanelAsWritten().LoadingPanel? ==> w.AnalysisPanelAsWritten().view.ProgressView?
    ensures w.AnalysisPanelAsWritten().LoadingPanel? ==> w.AnalysisPanelAsWritten().view.progress >= 50
  {
  }

  /** As written, a failed run leaves the ready panel or the earlier results: its message is not shown. */
  lemma FailedRunHidesMessage(w: Wizard)
    requires w.Valid() && !w.isAnalyzing && w.analysisStage == Loading.Error
    ensures w.AnalysisPanelAsWritten() == (if w.analysis.None? then ReadyToAnalyze else ResultsPanel(w.analysis.value))
  {
  }

  /** With the failure view: after a failed run the page shows its message and a retry button. */
  lemma FailedRunShowsMessage(w: Wizard)
    requires w.Valid() && !w.isAnalyzing && w.analysisStage == Loading.Error
    requires w.analysisError.Some? && w.analysisError.value != ""
    ensures w.AnalysisPanel() == LoadingPanel(Loading.FailureView(w.analysisError.value, true))
  {
  }

  /** Both panels agree whenever the last run did not fail. */
  lemma PanelsAgreeUnlessFailed(w: Wizard)
    requires w.Valid() && w.analysisStage != Loading.Error
    ensures w.AnalysisPanel() == w.AnalysisPanelAsWritten()
  {
  }

  /** The timer set by `onSimulate` as written posts the vitals from before the simulation. */
  lemma StaleSimulationRequest(before: RunClosure, newVitals: VitalSigns, now: int)
    requires before.patient.Some? && before.encounter.Some?
    requires before.vitals.(recordedAt := 0) != newVitals.(recordedAt := 0)
    ensures RequestBody(before, now).value.encounter.value.vitals == Stamp(before.vitals, now)
    ensures RequestBody(before, now).value.encounter.value.vitals != Stamp(newVitals, now)
  {
    assert Stamp(before.vitals, now).(recordedAt := 0) == before.vitals.(recordedAt := 0);
    assert Stamp(newVitals, now).(recordedAt := 0) == newVitals.(recordedAt := 0);
  }

  /** After `onSimulate` with the run given the simulated vitals, the request carries them. */
  lemma SimulationRequestCarriesVitals(before: RunClosure, newVitals: VitalSigns, now: int)
    requires before.patient.Some? && before.encounter.Some?
    ensures RequestBody(before.(vitals := newVitals), now).value.encounter.value.vitals == Stamp(newVitals, now)
  {
  }

  /** A submitted history, symptoms step and vitals step, in order, leave an encounter stamped with the vitals. */
  method IntakeScenario(w: Wizard, encounterId: string, t1: int, t2: int)
    requires w.Valid() && w.patient.Some?
    modifies w
    ensures w.Valid()
    ensures w.medicalHistory == Some(MedicalHistory(old(w.patient).value.id, old(w.conditions), []))
    ensures w.encounter.Some? && w.encounter.value.id == encounterId
    ensures w.encounter.value.vitals == Stamp(old(w.vitals), t2)
    ensures w.encounter.value.symptoms == old(w.symptoms)
  {
    w.HandleMedicalHistorySubmit();
    w.HandleSymptomsSubmit(encounterId, t1);
    w.HandleVitalsSubmit(t2);
  }
}
