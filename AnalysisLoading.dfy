/**
 * The analysis progress view (src/components/analysis/AnalysisLoading.tsx): the four
 * stages with their progress percentages, the lookup of the current stage with its
 * fallback, the failure view, and the three stage indicators.
 */
module AnalysisLoading {
  import opened Wrappers

  /** The stage the assessment page reports while an analysis runs. */
  datatype AnalysisStage = Preparing | Analyzing | Processing | Complete | Error

  datatype StageInfo = StageInfo(id: AnalysisStage, caption: string, progress: nat)

  const Stages: seq<StageInfo> := [
    StageInfo(Preparing, "Preparing clinical data...", 20),
    StageInfo(Analyzing, "AI analyzing patterns...", 50),
    StageInfo(Processing, "Generating recommendations...", 80),
    StageInfo(Complete, "Analysis complete", 100)
  ]

  const DefaultError := "An unexpected error occurred during analysis."

  /** `stages.findIndex(s => s.id === stage)`: -1 for the error stage, which has no entry. */
  function StageIndex(stage: AnalysisStage): (i: int)
    ensures -1 <= i < |Stages|
    ensures i == -1 <==> stage == Error
    ensures i >= 0 ==> Stages[i].id == stage
    ensures forall k :: 0 <= k < |Stages| && Stages[k].id == stage ==> k == i
  {
    match stage
    case Preparing => 0
    case Analyzing => 1
    case Processing => 2
    case Complete => 3
    case Error => -1
  }

  /** `stages[currentStageIndex] || stages[0]`: the stage's own entry, or the first when there is none. */
  function CurrentStage(stage: AnalysisStage): (s: StageInfo)
    ensures stage != Error ==> s.id == stage && s in Stages
    ensures stage == Error ==> s == Stages[0]
  {
    var i := StageIndex(stage);
    if i >= 0 then Stages[i] else Stages[0]
  }

  /** Later stages show strictly more progress, and only the last one reaches 100. */
  lemma ProgressIncreases(a: AnalysisStage, b: AnalysisStage)
    requires a != Error && b != Error
    ensures StageIndex(a) < StageIndex(b) <==> CurrentStage(a).progress < CurrentStage(b).progress
    ensures CurrentStage(a).progress == 100 <==> a == Complete
  {
  }

  /** The marker of one of the three indicators. */
  datatype Indicator = Done | Current | Waiting(number: nat)

  /** Indicator `index` (0 to 2) of `stages.slice(0, -1)`: done before the current stage, spinning at it. */
  function IndicatorAt(stage: AnalysisStage, index: nat): (m: Indicator)
    requires index < |Stages| - 1
    ensures m == Done <==> index < StageIndex(stage)
    ensures m == Current <==> index >= StageIndex(stage) && Stages[index].id == stage
    ensures m.Waiting? ==> m.number == index + 1
  {
    if index < StageIndex(stage) then Done
    else if Stages[index].id == stage then Current
    else Waiting(index + 1)
  }

  /** While running, exactly the indicators before the current stage are done and the current one spins. */
  lemma IndicatorsWhileRunning(stage: AnalysisStage, index: nat)
    requires stage == Preparing || stage == Analyzing || stage == Processing
    requires index < |Stages| - 1
    ensures IndicatorAt(stage, index) == Current <==> index == StageIndex(stage)
    ensures IndicatorAt(stage, index).Waiting? <==> index > StageIndex(stage)
  {
  }

  /** At completion all three indicators are done. */
  lemma IndicatorsWhenComplete(index: nat)
    requires index < |Stages| - 1
    ensures IndicatorAt(Complete, index) == Done
  {
  }

  /** What the component renders. */
  datatype LoadingView =
    | FailureView(message: string, retryButton: bool)
    | ProgressView(progress: nat, caption: string)

  /** The failure view for the error stage, the progress bar otherwise. */
  function Render(stage: AnalysisStage, error: Option<string>, hasRetry: bool): (v: LoadingView)
    ensures v.FailureView? <==> stage == Error
    ensures v.FailureView? ==> v.retryButton == hasRetry
    ensures v.FailureView? ==>
              (v.message == DefaultError <==> error.None? || error.value == "" || error.value == DefaultError)
    ensures v.FailureView? && error.Some? && error.value != "" ==> v.message == error.value
    ensures v.ProgressView? ==> v.progress == CurrentStage(stage).progress && v.caption == CurrentStage(stage).caption
  {
    if stage == Error then
      FailureView(if error.Some? && error.value != "" then error.value else DefaultError, hasRetry)
    else
      var s := CurrentStage(stage);
      ProgressView(s.progress, s.caption)
  }
}
