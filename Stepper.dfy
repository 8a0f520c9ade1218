/**
 * The step indicator (src/components/ui/Stepper.tsx): for each step, computed from the
 * current step and the completed list, whether it is completed, whether it can be clicked,
 * what its marker shows, and how the connector after it is drawn.
 */
module Stepper {
  import opened Wrappers
  import opened Medical

  /** `steps.findIndex(s => s.id === id)`: the first position of `id`, or -1. */
  function FindIndex(steps: seq<CaseWorkflowStep>, id: CaseWorkflowStep): (r: int)
    ensures -1 <= r < |steps|
    ensures r >= 0 ==> steps[r] == id && forall k :: 0 <= k < r ==> steps[k] != id
    ensures r == -1 <==> id !in steps
  {
    if steps == [] then -1
    else if steps[0] == id then 0
    else
      var r := FindIndex(steps[1..], id);
      if r == -1 then -1 else r + 1
  }

  /** `isCompleted`. */
  predicate IsCompleted(steps: seq<CaseWorkflowStep>, completed: seq<CaseWorkflowStep>, index: nat)
    requires index < |steps|
  {
    steps[index] in completed
  }

  /** `isClickable`: completed, or not after the current step. */
  predicate IsClickable(steps: seq<CaseWorkflowStep>, current: CaseWorkflowStep,
                        completed: seq<CaseWorkflowStep>, index: nat)
    requires index < |steps|
  {
    IsCompleted(steps, completed, index) || index <= FindIndex(steps, current)
  }

  /** The current step and every earlier one can be clicked; a later one only once completed. */
  lemma ClickableIff(steps: seq<CaseWorkflowStep>, current: CaseWorkflowStep,
                     completed: seq<CaseWorkflowStep>, index: nat)
    requires index < |steps| && current in steps
    ensures FindIndex(steps, current) >= 0
    ensures index <= FindIndex(steps, current) ==> IsClickable(steps, current, completed, index)
    ensures index > FindIndex(steps, current) ==>
              (IsClickable(steps, current, completed, index) <==> steps[index] in completed)
  {
  }

  /** When the current step is not among the steps, only completed steps can be clicked. */
  lemma UnknownCurrentOnlyCompleted(steps: seq<CaseWorkflowStep>, current: CaseWorkflowStep,
                                    completed: seq<CaseWorkflowStep>, index: nat)
    requires index < |steps| && current !in steps
    ensures IsClickable(steps, current, completed, index) <==> steps[index] in completed
  {
  }

  /** The button's handler: `isClickable && onStepClick(step.id)`; `None` means no call. */
  function Click(steps: seq<CaseWorkflowStep>, current: CaseWorkflowStep,
                 completed: seq<CaseWorkflowStep>, index: nat): (r: Option<CaseWorkflowStep>)
    requires index < |steps|
    ensures r.Some? <==> IsClickable(steps, current, completed, index)
    ensures r.Some? ==> r.value == steps[index]
  {
    if IsClickable(steps, current, completed, index) then Some(steps[index]) else None
  }

  /** The marker in a step's circle: a check when completed, else its position from 1. */
  datatype Marker = CheckMark | Position(n: nat)

  function StepMarker(steps: seq<CaseWorkflowStep>, completed: seq<CaseWorkflowStep>, index: nat): (m: Marker)
    requires index < |steps|
    ensures m.CheckMark? <==> steps[index] in completed
    ensures m.Position? ==> m.n == index + 1 && m.n >= 1
  {
    if IsCompleted(steps, completed, index) then CheckMark else Position(index + 1)
  }

  /** The connectors drawn after each step but the last; `true` is the highlighted colour. */
  function Connectors(steps: seq<CaseWorkflowStep>, completed: seq<CaseWorkflowStep>): (c: seq<bool>)
    ensures |c| == if steps == [] then 0 else |steps| - 1
    ensures forall i :: 0 <= i < |c| ==> (c[i] <==> steps[i] in completed)
  {
    if steps == [] then []
    else seq(|steps| - 1, i requires 0 <= i < |steps| - 1 => IsCompleted(steps, completed, i))
  }
}
