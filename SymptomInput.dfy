/**
 * The symptom list editor (src/components/forms/SymptomInput.tsx). Each handler builds the
 * new list from the old one and hands it to the parent; the component's own state is only
 * the search term, which every add resets. Ids come from the caller (`generateId`).
 */
module SymptomInput {
  import opened Wrappers
  import opened JsString
  import opened Medical
  import ListOps

  const CommonSymptoms: seq<string> :=
    ["Fever", "Cough", "Fatigue", "Headache", "Nausea", "Dizziness", "Shortness of breath", "Chest pain"]

  /** Two names match when they agree after `toLowerCase`. */
  predicate SameName(a: string, b: string) {
    ToLower(a) == ToLower(b)
  }

  /** Some symptom of the list already has this name, up to case. */
  predicate HasName(symptoms: seq<Symptom>, name: string) {
    exists i :: 0 <= i < |symptoms| && SameName(symptoms[i].name, name)
  }

  /** No two symptoms of the list share a name, up to case. */
  predicate NamesUnique(symptoms: seq<Symptom>) {
    forall i, j :: 0 <= i < j < |symptoms| ==> !SameName(symptoms[i].name, symptoms[j].name)
  }

  /** Leaving symptoms out of a list keeps its names unique. */
  lemma {:induction false} SubsequenceKeepsNamesUnique(r: seq<Symptom>, s: seq<Symptom>)
    requires ListOps.IsSubsequence(r, s) && NamesUnique(s)
    ensures NamesUnique(r)
  {
    if r != [] {
      assert NamesUnique(s[1..]) by {
        forall i, j | 0 <= i < j < |s[1..]|
          ensures !SameName(s[1..][i].name, s[1..][j].name)
        {
          assert s[1..][i] == s[i + 1] && s[1..][j] == s[j + 1];
        }
      }
      if r[0] == s[0] && ListOps.IsSubsequence(r[1..], s[1..]) {
        SubsequenceKeepsNamesUnique(r[1..], s[1..]);
        ListOps.SubsequenceMembers(r[1..], s[1..]);
        forall i, j | 0 <= i < j < |r|
          ensures !SameName(r[i].name, r[j].name)
        {
          if i == 0 {
            assert r[j] in s[1..] by { assert r[j] == r[1..][j - 1]; }
            var m :| 0 <= m < |s[1..]| && s[1..][m] == r[j];
            assert s[m + 1] == r[j];
          } else {
            assert r[i] == r[1..][i - 1] && r[j] == r[1..][j - 1];
          }
        }
      } else {
        SubsequenceKeepsNamesUnique(r, s[1..]);
      }
    }
  }

  /** The record a manual add creates. */
  function NewSymptom(id: string, name: string): Symptom {
    Symptom(id, name, UnknownOnset, "Not specified", 5, false)
  }

  /** What a handler hands out: the new list given to `onSymptomsChange`, if any, and the search term. */
  datatype Change = Change(newSymptoms: Option<seq<Symptom>>, searchTerm: string)

  /** `handleAddSymptom(name)`: append a default symptom unless the name is already listed; clear the search term. */
  function AddSymptom(symptoms: seq<Symptom>, name: string, newId: string): (c: Change)
    ensures c.searchTerm == ""
    ensures c.newSymptoms.Some? <==> !HasName(symptoms, name)
    ensures c.newSymptoms.Some? ==> c.newSymptoms.value == symptoms + [NewSymptom(newId, name)]
  {
    if !HasName(symptoms, name) then Change(Some(symptoms + [NewSymptom(newId, name)]), "")
    else Change(None, "")
  }

  /** The list the parent holds after a change. */
  function Apply(symptoms: seq<Symptom>, c: Change): seq<Symptom> {
    c.newSymptoms.GetOr(symptoms)
  }

  /** Adding keeps names unique up to case, and the added name is then present. */
  lemma AddKeepsNamesUnique(symptoms: seq<Symptom>, name: string, newId: string)
    requires NamesUnique(symptoms)
    ensures NamesUnique(Apply(symptoms, AddSymptom(symptoms, name, newId)))
    ensures HasName(Apply(symptoms, AddSymptom(symptoms, name, newId)), name)
  {
    var r := Apply(symptoms, AddSymptom(symptoms, name, newId));
    if !HasName(symptoms, name) {
      assert r[|symptoms|].name == name;
      forall i, j | 0 <= i < j < |r|
        ensures !SameName(r[i].name, r[j].name)
      {
        if j == |symptoms| {
          assert r[i] == symptoms[i];
        }
      }
    } else {
      var k :| 0 <= k < |symptoms| && SameName(symptoms[k].name, name);
      assert r[k] == symptoms[k];
    }
  }

  /** Adding the same name twice adds it once, whatever its case the second time. */
  lemma AddTwiceAddsOnce(symptoms: seq<Symptom>, name: string, other: string, id1: string, id2: string)
    requires SameName(name, other)
    ensures var once := Apply(symptoms, AddSymptom(symptoms, name, id1));
            Apply(once, AddSymptom(once, other, id2)) == once
  {
    var once := Apply(symptoms, AddSymptom(symptoms, name, id1));
    if !HasName(symptoms, name) {
      assert SameName(once[|symptoms|].name, other);
    } else {
      var k :| 0 <= k < |symptoms| && SameName(symptoms[k].name, name);
      assert SameName(once[k].name, other);
    }
  }

  /** `handleRemoveSymptom(id)`: drop every symptom with that id. */
  function RemoveSymptom(symptoms: seq<Symptom>, id: string): (r: seq<Symptom>)
    ensures forall x :: x in r ==> x in symptoms && x.id != id
    ensures forall i :: 0 <= i < |symptoms| && symptoms[i].id != id ==> symptoms[i] in r
    ensures ListOps.IsSubsequence(r, symptoms)
  {
    ListOps.Filter(symptoms, (s: Symptom) => s.id != id)
  }

  /** Removing an id that is not listed changes nothing. */
  lemma RemoveAbsentId(symptoms: seq<Symptom>, id: string)
    requires forall i :: 0 <= i < |symptoms| ==> symptoms[i].id != id
    ensures RemoveSymptom(symptoms, id) == symptoms
  {
    ListOps.FilterKeepsAll(symptoms, (s: Symptom) => s.id != id);
  }

  /** Removing a freshly added symptom by its id gives back the list it was added to. */
  lemma RemoveUndoesAdd(symptoms: seq<Symptom>, name: string, newId: string)
    requires forall i :: 0 <= i < |symptoms| ==> symptoms[i].id != newId
    ensures RemoveSymptom(Apply(symptoms, AddSymptom(symptoms, name, newId)), newId) == symptoms
  {
    var p := (s: Symptom) => s.id != newId;
    if !HasName(symptoms, name) {
      ListOps.FilterConcat(symptoms, [NewSymptom(newId, name)], p);
      assert ListOps.Filter([NewSymptom(newId, name)], p) == [];
    }
    ListOps.FilterKeepsAll(symptoms, p);
  }

  /** The hint under the complaint shows while there is a complaint, no extraction and no symptom. */
  predicate ShowExtractTip(chiefComplaint: string, isNlpProcessing: bool, symptoms: seq<Symptom>)
    ensures ShowExtractTip(chiefComplaint, isNlpProcessing, symptoms) ==> symptoms == []
    ensures ShowExtractTip(chiefComplaint, isNlpProcessing, symptoms) ==> AutoExtractEnabled(chiefComplaint, isNlpProcessing)
  {
    chiefComplaint != "" && !isNlpProcessing && |symptoms| == 0
  }

  /** `handleSeverityChange(id, severity)`: the matching symptoms get the new severity, nothing else changes. */
  function ChangeSeverity(symptoms: seq<Symptom>, id: string, severity: int): (r: seq<Symptom>)
    ensures |r| == |symptoms|
    ensures forall i :: 0 <= i < |r| ==> r[i] == symptoms[i].(severity := r[i].severity)
    ensures forall i :: 0 <= i < |r| ==> r[i].severity == (if symptoms[i].id == id then severity else symptoms[i].severity)
  {
    seq(|symptoms|, i requires 0 <= i < |symptoms| =>
      if symptoms[i].id == id then symptoms[i].(severity := severity) else symptoms[i])
  }

  /** Changing a severity keeps names, and so keeps them unique. */
  lemma ChangeSeverityKeepsNames(symptoms: seq<Symptom>, id: string, severity: int)
    requires NamesUnique(symptoms)
    ensures NamesUnique(ChangeSeverity(symptoms, id, severity))
  {
    var r := ChangeSeverity(symptoms, id, severity);
    assert forall i :: 0 <= i < |r| ==> r[i].name == symptoms[i].name;
  }

  datatype SeverityBand = Mild | ModerateBand | Severe

  /** The label of severity option `n`. */
  function SeverityLabel(n: int): (b: SeverityBand)
    ensures b == Mild <==> n <= 3
    ensures b == Severe <==> n > 7
  {
    if n <= 3 then Mild else if n <= 7 then ModerateBand else Severe
  }

  /** The options 1 to 10 split into three mild, four moderate and three severe, in rising order. */
  lemma SeverityOptions()
    ensures forall n :: 1 <= n <= 3 ==> SeverityLabel(n) == Mild
    ensures forall n :: 4 <= n <= 7 ==> SeverityLabel(n) == ModerateBand
    ensures forall n :: 8 <= n <= 10 ==> SeverityLabel(n) == Severe
  {
  }

  /** Enter in the search box: add the search term when it is non-empty, else nothing. */
  function KeyDown(symptoms: seq<Symptom>, key: string, searchTerm: string, newId: string): (c: Change)
    ensures key != "Enter" || searchTerm == "" ==> c == Change(None, searchTerm)
    ensures key == "Enter" && searchTerm != "" ==> c == AddSymptom(symptoms, searchTerm, newId)
  {
    if key == "Enter" && searchTerm != "" then AddSymptom(symptoms, searchTerm, newId)
    else Change(None, searchTerm)
  }

  /** The Auto-Extract button is enabled only with a complaint and no extraction running. */
  predicate AutoExtractEnabled(chiefComplaint: string, isNlpProcessing: bool)
    ensures isNlpProcessing ==> !AutoExtractEnabled(chiefComplaint, isNlpProcessing)
    ensures chiefComplaint == "" ==> !AutoExtractEnabled(chiefComplaint, isNlpProcessing)
  {
    chiefComplaint != "" && !isNlpProcessing
  }
}
