/**
 * The differential-diagnosis list (src/components/medical/DiagnosisCard.tsx): the badge of
 * each probability, how many cards are shown, the "show more" button, and the two pieces of
 * list state, the expanded card and the show-all flag.
 */
module DiagnosisList {
  import opened Wrappers
  import opened Medical
  import JsString
  import Badge

  /** `probabilityColors`: high, moderate and low get three different badges. */
  function ProbabilityBadge(p: Probability): (b: Badge.Variant)
    ensures b == Badge.SuccessBadge <==> p == High
    ensures b == Badge.WarningBadge <==> p == Moderate
    ensures b == Badge.InfoBadge <==> p == Low
  {
    match p
    case High => Badge.SuccessBadge
    case Moderate => Badge.WarningBadge
    case Low => Badge.InfoBadge
  }

  /** The badge tells the probability back. */
  lemma ProbabilityBadgeInjective(p: Probability, q: Probability)
    ensures ProbabilityBadge(p) == ProbabilityBadge(q) <==> p == q
  {
  }

  const DefaultMaxInitialDisplay := 5

  /** `diagnoses.slice(0, max)`: a negative `max` counts from the end. */
  function Head(diagnoses: seq<DifferentialDiagnosis>, max: int): (r: seq<DifferentialDiagnosis>)
    ensures r <= diagnoses
    ensures 0 <= max ==> |r| == if max < |diagnoses| then max else |diagnoses|
    ensures max < 0 ==> |r| == if |diagnoses| + max < 0 then 0 else |diagnoses| + max
  {
    diagnoses[..JsString.SliceIndex(max, |diagnoses|)]
  }

  /** The state of one `DiagnosisList`. */
  class ListState {
    var expandedId: Option<string>
    var showAll: bool

    constructor ()
      ensures expandedId.None? && !showAll
    {
      expandedId := None;
      showAll := false;
    }

    /** `displayedDiagnoses`. */
    function Displayed(diagnoses: seq<DifferentialDiagnosis>, max: int): (r: seq<DifferentialDiagnosis>)
      reads this
      ensures showAll ==> r == diagnoses
      ensures !showAll ==> r == Head(diagnoses, max)
      ensures r <= diagnoses
    {
      if showAll then diagnoses else Head(diagnoses, max)
    }

    /** The "Show N more diagnoses" button, with its N, or `None` when it is not shown. */
    function ShowMoreButton(diagnoses: seq<DifferentialDiagnosis>, max: int): (n: Option<int>)
      reads this
      ensures n.Some? <==> |diagnoses| > max && !showAll
      ensures n.Some? ==> n.value == |diagnoses| - max && n.value > 0
    {
      if |diagnoses| > max && !showAll then Some(|diagnoses| - max) else None
    }

    /** A card is expanded when its id is the expanded one. */
    predicate IsExpanded(d: DifferentialDiagnosis)
      reads this
    {
      expandedId == Some(d.id)
    }

    /** The header click of card `id`: it closes the card when it is open, else opens it alone. */
    method Toggle(id: string)
      modifies this
      ensures old(expandedId) == Some(id) ==> expandedId.None?
      ensures old(expandedId) != Some(id) ==> expandedId == Some(id)
      ensures showAll == old(showAll)
    {
      expandedId := if expandedId == Some(id) then None else Some(id);
    }

    /** The "show more" click: every diagnosis is shown from then on. */
    method ShowMore()
      modifies this
      ensures showAll && expandedId == old(expandedId)
    {
      showAll := true;
    }
  }

  /** The button and the cards it reveals account for every diagnosis (with a non-negative `max`). */
  lemma ShownPlusMoreIsAll(s: ListState, diagnoses: seq<DifferentialDiagnosis>, max: int)
    requires 0 <= max
    ensures |s.Displayed(diagnoses, max)| + s.ShowMoreButton(diagnoses, max).GetOr(0) == |diagnoses|
    ensures s.ShowMoreButton(diagnoses, max).None? ==> s.Displayed(diagnoses, max) == diagnoses
  {
    if !s.showAll && |diagnoses| <= max {
      assert Head(diagnoses, max) == diagnoses;
    }
  }

  /** With distinct ids, at most one card is ever expanded. */
  lemma AtMostOneExpanded(s: ListState, diagnoses: seq<DifferentialDiagnosis>, i: nat, j: nat)
    requires forall a, b :: 0 <= a < b < |diagnoses| ==> diagnoses[a].id != diagnoses[b].id
    requires i < |diagnoses| && j < |diagnoses|
    requires s.IsExpanded(diagnoses[i]) && s.IsExpanded(diagnoses[j])
    ensures i == j
  {
  }

  /** Two clicks on the same header: a card that was open ends open; otherwise every card ends closed. */
  method ToggleTwice(s: ListState, id: string)
    modifies s
    ensures old(s.expandedId) == Some(id) ==> s.expandedId == Some(id)
    ensures old(s.expandedId) != Some(id) ==> s.expandedId.None?
  {
    s.Toggle(id);
    s.Toggle(id);
  }

  /** `showAll` never goes back: once the list is expanded, no click shrinks it again. */
  method ShowAllStays(s: ListState, id: string, diagnoses: seq<DifferentialDiagnosis>, max: int)
    returns (shown: seq<DifferentialDiagnosis>)
    modifies s
    ensures s.showAll
    ensures shown == diagnoses
  {
    s.ShowMore();
    s.Toggle(id);
    shown := s.Displayed(diagnoses, max);
  }
}
