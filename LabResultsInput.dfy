/**
 * The laboratory results editor (src/components/forms/LabResultsInput.tsx). The component
 * keeps a draft of one result in its own state (`LabDraft`); adding turns the draft into a
 * result appended to the parent's list and clears the draft. Ids come from the caller.
 */
module LabResultsInput {
  import opened Wrappers
  import opened JsString
  import opened Medical
  import ListOps

  /** One of the quick-add templates. */
  datatype TestTemplate = TestTemplate(name: string, unit: string, normal: string)

  const CommonTests: seq<TestTemplate> := [
    TestTemplate("Hemoglobin", "g/dL", "12.0-15.5"),
    TestTemplate("WBC Count", "x10^9/L", "4.5-11.0"),
    TestTemplate("Platelets", "x10^9/L", "150-450"),
    TestTemplate("Glucose (Fasting)", "mg/dL", "70-99"),
    TestTemplate("Creatinine", "mg/dL", "0.74-1.35"),
    TestTemplate("Sodium", "mmol/L", "135-145"),
    TestTemplate("Potassium", "mmol/L", "3.5-5.0"),
    TestTemplate("CRP", "mg/L", "<10")
  ]

  /** `parseFloat` of the value field: a number, or NaN when no number prefix parses. */
  function ParseValue(text: string): (v: LabValue)
    ensures v.Num? <==> ParseFloat(text).Some?
    ensures v.Num? ==> v.n == ParseFloat(text).value
    ensures !v.Text?
  {
    match ParseFloat(text)
    case Some(x) => Num(x)
    case None => NotANumber
  }

  /**
   * `handleAddResult` on the list: with a test name and a value, the list grows by one
   * result built from the draft, its range kept as text and its status `normal`; otherwise
   * the parent is not called (`None`).
   */
  function AddResult(results: seq<LabResult>, name: string, value: string, unit: string,
                     range: string, newId: string): (r: Option<seq<LabResult>>)
    ensures r.Some? <==> name != "" && value != ""
    ensures r.Some? ==> |r.value| == |results| + 1 && r.value[..|results|] == results
    ensures r.Some? ==> var added := r.value[|results|];
              && added.id == newId && added.testName == name && added.unit == unit
              && added.value == ParseValue(value)
              && added.referenceRange == Some(ReferenceRange(None, None, Some(range)))
              && added.status == Normal
  {
    if name != "" && value != "" then
      var added := LabResult(newId, name, ParseValue(value), unit,
                             Some(ReferenceRange(None, None, Some(range))), Normal);
      assert (results + [added])[..|results|] == results;
      Some(results + [added])
    else None
  }

  /** `removeResult(id)`: every result with that id goes, the others stay in order. */
  function RemoveResult(results: seq<LabResult>, id: string): (r: seq<LabResult>)
    ensures forall x :: x in r ==> x in results && x.id != id
    ensures forall i :: 0 <= i < |results| && results[i].id != id ==> results[i] in r
    ensures ListOps.IsSubsequence(r, results)
  {
    ListOps.Filter(results, (x: LabResult) => x.id != id)
  }

  /** Removing a freshly added result by its id gives back the list it was added to. */
  lemma RemoveUndoesAdd(results: seq<LabResult>, name: string, value: string, unit: string,
                        range: string, newId: string)
    requires name != "" && value != ""
    requires forall i :: 0 <= i < |results| ==> results[i].id != newId
    ensures RemoveResult(AddResult(results, name, value, unit, range, newId).value, newId) == results
  {
    var p := (x: LabResult) => x.id != newId;
    var added := AddResult(results, name, value, unit, range, newId).value;
    assert added == results + [added[|results|]];
    ListOps.FilterConcat(results, [added[|results|]], p);
    ListOps.FilterKeepsAll(results, p);
    assert ListOps.Filter([added[|results|]], p) == [];
  }

  /** What the "Ref:" note shows: the range text when it is non-empty, else the two bounds. */
  datatype RefShown = RefText(text: string) | RefBounds(low: Option<real>, high: Option<real>)

  /** The note under a result: none without a range, else `text || low-high`. */
  function RefDisplay(range: Option<ReferenceRange>): (s: Option<RefShown>)
    ensures s.None? <==> range.None?
    ensures s.Some? && s.value.RefText? <==> range.Some? && range.value.text.Some? && range.value.text.value != ""
    ensures s.Some? && s.value.RefBounds? ==> s.value == RefBounds(range.value.low, range.value.high)
  {
    match range
    case None => None
    case Some(rr) =>
      if rr.text.Some? && rr.text.value != "" then Some(RefText(rr.text.value))
      else Some(RefBounds(rr.low, rr.high))
  }

  /** A result added with an empty range field shows its bounds, which it never has. */
  lemma EmptyRangeShowsMissingBounds(results: seq<LabResult>, name: string, value: string,
                                     unit: string, newId: string)
    requires name != "" && value != ""
    ensures var added := AddResult(results, name, value, unit, "", newId).value[|results|];
            RefDisplay(added.referenceRange) == Some(RefBounds(None, None))
  {
  }

  /** The component's own state: whether a template was picked, and the four draft fields. */
  class LabDraft {
    var isAdding: bool
    var name: string
    var value: string
    var unit: string
    var range: string

    constructor ()
      ensures !isAdding && name == "" && value == "" && unit == "" && range == ""
    {
      isAdding := false;
      name := "";
      value := "";
      unit := "";
      range := "";
    }

    /** The Add Result button is enabled only with a test name and a value. */
    predicate AddEnabled()
      reads this
      ensures forall results, newId :: AddEnabled() <==> AddResult(results, name, value, unit, range, newId).Some?
    {
      name != "" && value != ""
    }

    method SetName(s: string)
      modifies this
      ensures name == s && value == old(value) && unit == old(unit) && range == old(range)
      ensures isAdding == old(isAdding)
    {
      name := s;
    }

    method SetValue(s: string)
      modifies this
      ensures value == s && name == old(name) && unit == old(unit) && range == old(range)
      ensures isAdding == old(isAdding)
    {
      value := s;
    }

    method SetUnit(s: string)
      modifies this
      ensures unit == s && name == old(name) && value == old(value) && range == old(range)
      ensures isAdding == old(isAdding)
    {
      unit := s;
    }

    method SetRange(s: string)
      modifies this
      ensures range == s && name == old(name) && value == old(value) && unit == old(unit)
      ensures isAdding == old(isAdding)
    {
      range := s;
    }

    /** `handleQuickAdd(test)`: the template fills name, unit and range; the value is kept. */
    method QuickAdd(test: TestTemplate)
      modifies this
      ensures name == test.name && unit == test.unit && range == test.normal && isAdding
      ensures value == old(value)
    {
      name := test.name;
      unit := test.unit;
      range := test.normal;
      isAdding := true;
    }

    /**
     * `handleAddResult`: hand the parent the grown list and clear the draft, or, without a
     * name or a value, do nothing at all.
     */
    method Add(results: seq<LabResult>, newId: string) returns (newResults: Option<seq<LabResult>>)
      modifies this
      ensures newResults == AddResult(results, old(name), old(value), old(unit), old(range), newId)
      ensures newResults.Some? ==> name == "" && value == "" && unit == "" && range == "" && !isAdding
      ensures newResults.None? ==>
                name == old(name) && value == old(value) && unit == old(unit) && range == old(range)
                && isAdding == old(isAdding)
    {
      var n, v, u, rg := name, value, unit, range;
      if n != "" && v != "" {
        name, value, unit, range, isAdding := "", "", "", "", false;
      }
      newResults := AddResult(results, n, v, u, rg, newId);
    }
  }

  /** A quick-added template with a value typed in adds a result carrying the template's name, unit and range. */
  lemma QuickAddThenAdd(results: seq<LabResult>, test: TestTemplate, value: string, newId: string)
    requires test in CommonTests && value != ""
    ensures var r := AddResult(results, test.name, value, test.unit, test.normal, newId);
            && r.Some?
            && r.value[|results|].testName == test.name
            && RefDisplay(r.value[|results|].referenceRange) == Some(RefText(test.normal))
  {
  }
}
