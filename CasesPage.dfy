/**
 * The saved-cases page (src/app/cases/page.tsx): the search filter over the loaded cases,
 * the "time ago" text of each card (the dashboard shows the same text, with the same code,
 * at src/app/page.tsx:41-53) and the diagnosis chips of a card.
 */
module CasesPage {
  import opened Wrappers
  import opened JsString
  import opened Medical
  import ListOps
  import Db
  import Utils

  // ---------------------------------------------------------------- search

  /** Some diagnosis condition of the case contains the (lowercased) needle. */
  predicate SomeConditionIncludes(c: Db.CaseDoc, needle: string) {
    exists i :: 0 <= i < |c.data.analysis.differentialDiagnoses| &&
      Includes(ToLower(c.data.analysis.differentialDiagnoses[i].condition), needle)
  }

  /** The filter's test: the lowercased term occurs in the lowercased id, complaint or some diagnosis. */
  predicate Matches(c: Db.CaseDoc, term: string)
    ensures term == "" ==> Matches(c, term)
  {
    IncludesEmpty(ToLower(c.data.patient.pseudonymizedId));
    var needle := ToLower(term);
    || Includes(ToLower(c.data.patient.pseudonymizedId), needle)
    || Includes(ToLower(c.data.encounter.chiefComplaint), needle)
    || SomeConditionIncludes(c, needle)
  }

  /** `filteredCases`. */
  function FilteredCases(cases: seq<Db.CaseDoc>, term: string): (r: seq<Db.CaseDoc>)
    ensures forall c :: c in r <==> c in cases && Matches(c, term)
    ensures ListOps.IsSubsequence(r, cases)
  {
    ListOps.Filter(cases, (c: Db.CaseDoc) => Matches(c, term))
  }

  /**
   * The search is a plain filter: it works case by case over a concatenation, and a single
   * case stays exactly when it matches. So a case listed twice is shown twice when it matches.
   */
  lemma FilteredCasesPointwise(a: seq<Db.CaseDoc>, b: seq<Db.CaseDoc>, c: Db.CaseDoc, term: string)
    ensures FilteredCases(a + b, term) == FilteredCases(a, term) + FilteredCases(b, term)
    ensures FilteredCases([c], term) == if Matches(c, term) then [c] else []
  {
    ListOps.FilterConcat(a, b, (x: Db.CaseDoc) => Matches(x, term));
    assert [c][1..] == [];
  }

  /** An empty search box shows every case, in order. */
  lemma EmptyTermKeepsAll(cases: seq<Db.CaseDoc>)
    ensures FilteredCases(cases, "") == cases
  {
    forall i | 0 <= i < |cases|
      ensures Matches(cases[i], "")
    {
      IncludesEmpty(ToLower(cases[i].data.patient.pseudonymizedId));
    }
    ListOps.FilterKeepsAll(cases, (c: Db.CaseDoc) => Matches(c, ""));
  }

  /** Terms that differ only in the case of their letters give the same list. */
  lemma CaseInsensitive(cases: seq<Db.CaseDoc>, t1: string, t2: string)
    requires ToLower(t1) == ToLower(t2)
    ensures FilteredCases(cases, t1) == FilteredCases(cases, t2)
  {
    ListOps.FilterCongruent(cases, (c: Db.CaseDoc) => Matches(c, t1), (c: Db.CaseDoc) => Matches(c, t2));
  }

  /** Typing more of a term only narrows the list: what remains was already listed, in the same order. */
  lemma LongerTermNarrows(cases: seq<Db.CaseDoc>, term: string, more: string)
    ensures ListOps.IsSubsequence(FilteredCases(cases, term + more), FilteredCases(cases, term))
  {
    forall i | 0 <= i < |cases| && Matches(cases[i], term + more)
      ensures Matches(cases[i], term)
    {
      var c := cases[i];
      ToLowerConcat(term, more);
      var a, b := ToLower(term), ToLower(more);
      if Includes(ToLower(c.data.patient.pseudonymizedId), a + b) {
        IncludesPrefix(ToLower(c.data.patient.pseudonymizedId), a, b);
      } else if Includes(ToLower(c.data.encounter.chiefComplaint), a + b) {
        IncludesPrefix(ToLower(c.data.encounter.chiefComplaint), a, b);
      } else {
        var k :| 0 <= k < |c.data.analysis.differentialDiagnoses| &&
          Includes(ToLower(c.data.analysis.differentialDiagnoses[k].condition), a + b);
        IncludesPrefix(ToLower(c.data.analysis.differentialDiagnoses[k].condition), a, b);
      }
    }
    ListOps.FilterNarrows(cases, (c: Db.CaseDoc) => Matches(c, term + more), (c: Db.CaseDoc) => Matches(c, term));
  }

  /**
   * A saved case can be found by its id in any case, and by any word of a diagnosis typed
   * in any case: the page lowercases both sides, unlike the stored `searchTerms`.
   */
  lemma FoundBySavedFields(c: Db.CaseDoc, i: nat)
    requires i < |c.data.analysis.differentialDiagnoses|
    ensures Matches(c, c.data.patient.pseudonymizedId)
    ensures Matches(c, ToUpper(c.data.analysis.differentialDiagnoses[i].condition))
  {
    var cond := c.data.analysis.differentialDiagnoses[i].condition;
    assert OccursAt(ToLower(c.data.patient.pseudonymizedId), ToLower(c.data.patient.pseudonymizedId), 0);
    IncludesIff(ToLower(c.data.patient.pseudonymizedId), ToLower(c.data.patient.pseudonymizedId));
    assert ToLower(ToUpper(cond)) == ToLower(cond);
    assert OccursAt(ToLower(cond), ToLower(cond), 0);
    IncludesIff(ToLower(cond), ToLower(cond));
  }

  // ---------------------------------------------------------------- time ago

  /** What `getTimeAgo` shows: nothing, or a count of minutes, hours or days. */
  datatype TimeAgo = NoTime | MinAgo(mins: int) | HoursAgo(hours: int) | DaysAgo(days: int)

  /**
   * `getTimeAgo(timestamp)` when the clock reads `now` (both in ms); `None` stands for a
   * falsy timestamp. Each count is rounded down, a date in the future giving a negative
   * number of minutes.
   */
  function GetTimeAgo(timestamp: Option<int>, now: int): (r: TimeAgo)
    ensures r == NoTime <==> timestamp.None?
    ensures r.MinAgo? <==> timestamp.Some? && now - timestamp.value < 3600000
    ensures r.HoursAgo? <==> timestamp.Some? && 3600000 <= now - timestamp.value < 86400000
    ensures r.DaysAgo? <==> timestamp.Some? && 86400000 <= now - timestamp.value
    ensures r.MinAgo? ==> r.mins * 60000 <= now - timestamp.value < (r.mins + 1) * 60000
    ensures r.HoursAgo? ==> 1 <= r.hours < 24 && r.hours * 3600000 <= now - timestamp.value < (r.hours + 1) * 3600000
    ensures r.DaysAgo? ==> 1 <= r.days && r.days * 86400000 <= now - timestamp.value < (r.days + 1) * 86400000
  {
    if timestamp.None? then NoTime
    else
      var diffMs := now - timestamp.value;
      var diffMins := diffMs / 60000;
      var diffHours := diffMins / 60;
      var diffDays := diffHours / 24;
      if diffMins < 60 then MinAgo(diffMins)
      else if diffHours < 24 then HoursAgo(diffHours)
      else DaysAgo(diffDays)
  }

  function TimeAgoText(t: TimeAgo): (r: string)
    ensures r == "" <==> t.NoTime?
    ensures t.MinAgo? ==> ParseFloat(r) == Some(t.mins as real) && |r| >= 8 && r[|r| - 8..] == " min ago"
    ensures t.HoursAgo? ==> ParseFloat(r) == Some(t.hours as real) && |r| >= 10 && r[|r| - 10..] == " hours ago"
    ensures t.DaysAgo? ==> ParseFloat(r) == Some(t.days as real) && |r| >= 9 && r[|r| - 9..] == " days ago"
  {
    match t
    case NoTime => ""
    case MinAgo(m) => ParseFloatOfIntToString(m, " min ago"); IntToString(m) + " min ago"
    case HoursAgo(h) => ParseFloatOfIntToString(h, " hours ago"); IntToString(h) + " hours ago"
    case DaysAgo(d) => ParseFloatOfIntToString(d, " days ago"); IntToString(d) + " days ago"
  }

  /**
   * Between one minute and a week, the cards count the same minutes, hours and days as
   * `formatRelativeTime`; under a minute they say "0 min ago" where it says "Just now", and
   * after a week they go on counting days where it gives a date.
   */
  lemma AgreesWithRelativeTime(date: int, now: int)
    ensures 60000 <= now - date < 7 * 86400000 ==>
      match Utils.FormatRelativeTime(date, now)
      case MinutesAgo(m) => GetTimeAgo(Some(date), now) == MinAgo(m)
      case HoursAgo(h) => GetTimeAgo(Some(date), now) == HoursAgo(h)
      case DaysAgo(d) => GetTimeAgo(Some(date), now) == DaysAgo(d)
      case _ => false
    ensures 0 <= now - date < 60000 ==>
      Utils.FormatRelativeTime(date, now) == Utils.JustNow && GetTimeAgo(Some(date), now) == MinAgo(0)
    ensures now - date >= 7 * 86400000 ==>
      Utils.FormatRelativeTime(date, now).OlderDate? && GetTimeAgo(Some(date), now).DaysAgo?
  {
  }

  // ---------------------------------------------------------------- diagnosis chips

  /** A card's chips: the diagnoses shown, and the "+k more" label if any. */
  datatype Chips = Chips(shown: seq<DifferentialDiagnosis>, more: Option<nat>)

  /** `slice(0, 3)` and the "+k more" label when there are more than three. */
  function DiagnosisChips(d: seq<DifferentialDiagnosis>): (c: Chips)
    ensures |c.shown| <= 3 && c.shown <= d
    ensures |c.shown| == if |d| < 3 then |d| else 3
    ensures c.more.Some? <==> |d| > 3
    ensures |c.shown| + c.more.GetOr(0) == |d|
  {
    var shown := d[..if |d| < 3 then |d| else 3];
    Chips(shown, if |d| > 3 then Some(|d| - 3) else None)
  }
}
