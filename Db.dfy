/**
 * The case store front end (src/lib/db.ts): the record `saveClinicalCase` writes, with its
 * search terms, and how each store call's failure is turned into a result. The store
 * itself (its ordering, limits and ids) is outside the model: its answers are parameters.
 */
module Db {
  import opened Wrappers
  import opened JsString
  import opened Medical

  /** The record written to the `cases` collection. */
  datatype SavedCase = SavedCase(
    patient: Patient,
    encounter: ClinicalEncounter,
    history: Option<MedicalHistory>,
    labResults: seq<LaboratoryPanel>,
    analysis: DiagnosticAnalysis,
    savedAt: int,
    searchTerms: seq<string>)

  /** A stored case with its document id. */
  datatype CaseDoc = CaseDoc(id: string, data: SavedCase)

  /** `searchTerms`: the id as typed, the lowercased complaint, then each diagnosis's lowercased condition. */
  function SearchTerms(patient: Patient, encounter: ClinicalEncounter, analysis: DiagnosticAnalysis): (t: seq<string>)
    ensures |t| == 2 + |analysis.differentialDiagnoses|
    ensures t[0] == patient.pseudonymizedId && t[1] == ToLower(encounter.chiefComplaint)
    ensures forall i :: 0 <= i < |analysis.differentialDiagnoses| ==>
              t[2 + i] == ToLower(analysis.differentialDiagnoses[i].condition)
  {
    [patient.pseudonymizedId, ToLower(encounter.chiefComplaint)]
      + seq(|analysis.differentialDiagnoses|, i requires 0 <= i < |analysis.differentialDiagnoses| =>
              ToLower(analysis.differentialDiagnoses[i].condition))
  }

  /** `{ ...r, referenceRange: r.referenceRange ? { ...r.referenceRange } : null }`. */
  function NormalizeResult(r: LabResult): (n: LabResult)
    ensures n.referenceRange.None? <==> r.referenceRange.None?
    ensures n == r
  {
    r.(referenceRange := if r.referenceRange.Some? then Some(r.referenceRange.value) else None)
  }

  function NormalizePanel(p: LaboratoryPanel): (n: LaboratoryPanel)
    ensures |n.results| == |p.results|
    ensures forall j :: 0 <= j < |p.results| ==> n.results[j] == NormalizeResult(p.results[j])
    ensures n.(results := p.results) == p
  {
    p.(results := seq(|p.results|, j requires 0 <= j < |p.results| => NormalizeResult(p.results[j])))
  }

  /** `caseData`: the inputs as given, the history `null` when absent, the panels normalised, and the search terms. */
  function BuildCaseData(patient: Patient, encounter: ClinicalEncounter, history: Option<MedicalHistory>,
                         labResults: seq<LaboratoryPanel>, analysis: DiagnosticAnalysis, now: int): (c: SavedCase)
    ensures c.patient == patient && c.encounter == encounter && c.analysis == analysis && c.savedAt == now
    ensures c.history == history
    ensures |c.labResults| == |labResults|
    ensures forall i :: 0 <= i < |labResults| ==> |c.labResults[i].results| == |labResults[i].results|
    ensures c.searchTerms == SearchTerms(patient, encounter, analysis)
  {
    SavedCase(patient, encounter, history,
              seq(|labResults|, i requires 0 <= i < |labResults| => NormalizePanel(labResults[i])),
              analysis, now, SearchTerms(patient, encounter, analysis))
  }

  /** In this model no field is ever undefined, so normalising the panels changes nothing at all. */
  lemma NormalisationKeepsPanels(patient: Patient, encounter: ClinicalEncounter, history: Option<MedicalHistory>,
                                 labResults: seq<LaboratoryPanel>, analysis: DiagnosticAnalysis, now: int)
    ensures BuildCaseData(patient, encounter, history, labResults, analysis, now).labResults == labResults
  {
    var c := BuildCaseData(patient, encounter, history, labResults, analysis, now);
    assert forall i :: 0 <= i < |labResults| ==> c.labResults[i] == labResults[i] by {
      forall i | 0 <= i < |labResults|
        ensures c.labResults[i] == labResults[i]
      {
        assert c.labResults[i].results == labResults[i].results;
      }
    }
  }

  /** A lowercased word of a diagnosis can be found among the search terms; the id keeps its case. */
  lemma SearchTermsHoldEveryDiagnosis(patient: Patient, encounter: ClinicalEncounter,
                                      analysis: DiagnosticAnalysis, i: nat)
    requires i < |analysis.differentialDiagnoses|
    ensures ToLower(analysis.differentialDiagnoses[i].condition) in SearchTerms(patient, encounter, analysis)
    ensures patient.pseudonymizedId in SearchTerms(patient, encounter, analysis)
  {
    assert SearchTerms(patient, encounter, analysis)[2 + i] == ToLower(analysis.differentialDiagnoses[i].condition);
  }

  /** The result of a write: the new document's id, or the error `saveClinicalCase` throws. */
  datatype SaveResult = SavedAs(id: string) | SaveFailed(message: string)

  /** `addDoc`'s answer: the new document's id, or a failure. */
  datatype WriteAnswer = Written(docId: string) | WriteRejected

  /** `saveClinicalCase`: the id of the written record, or any failure replaced by "Failed to save case". */
  function SaveClinicalCase(answer: WriteAnswer): (r: SaveResult)
    ensures r.SavedAs? <==> answer.Written?
    ensures r.SavedAs? ==> r.id == answer.docId
    ensures r.SaveFailed? ==> r.message == "Failed to save case"
  {
    match answer
    case Written(id) => SavedAs(id)
    case WriteRejected => SaveFailed("Failed to save case")
  }

  /** `getRecentCases` and `getAllCases`: the store's documents, or `[]` when the query fails. */
  function ListCases(answer: Option<seq<CaseDoc>>): (r: seq<CaseDoc>)
    ensures answer.None? ==> r == []
    ensures answer.Some? ==> r == answer.value
  {
    answer.GetOr([])
  }

  /** The answer to a single-document read: it failed, or the document does or does not exist. */
  datatype ReadAnswer = ReadFailed | Missing | Found(data: SavedCase)

  /** `getCaseById`: the document with its id when it exists, `null` when it is missing or the read fails. */
  function GetCaseById(caseId: string, answer: ReadAnswer): (r: Option<CaseDoc>)
    ensures r.Some? <==> answer.Found?
    ensures r.Some? ==> r.value == CaseDoc(caseId, answer.data)
  {
    match answer
    case Found(data) => Some(CaseDoc(caseId, data))
    case _ => None
  }
}
