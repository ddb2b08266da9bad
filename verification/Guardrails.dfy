/** When a guardrail is due, stated without the evaluator of megalos_server/tools.py lines 299-345. */
module Guardrails {
  import opened Options
  import opened Workflows
  import opened References
  import opened Tables
  import opened ToolSpecs

  /** What a trigger waits for: a pattern that matches the content; so many stored steps, the
      submitted one counted; so many visits of the step; more characters than allowed. */
  ghost predicate Due(env: Env, t: Trigger, content: string, data: StepData, row: Session, step: StepId) {
    match t
    case KeywordMatch(patterns) => exists k :: 0 <= k < |patterns| && env.matches(patterns[k], content)
    case StepCount(max) => max <= |data.Keys|
    case StepRevisit(maxVisits) => maxVisits == 0 || (step in row.visits && row.visits[step] >= maxVisits)
    case OutputLength(maxChars) => maxChars < |content|
  }

  /** Guardrail k is due and none before it is. */
  ghost predicate FirstDue(env: Env, gs: seq<Guardrail>, content: string, data: StepData, row: Session, step: StepId, k: int) {
    && 0 <= k < |gs| && Due(env, gs[k].trigger, content, data, row, step)
    && forall j :: 0 <= j < k ==> !Due(env, gs[j].trigger, content, data, row, step)
  }

  ghost predicate NoneDue(env: Env, gs: seq<Guardrail>, content: string, data: StepData, row: Session, step: StepId) {
    forall j :: 0 <= j < |gs| ==> !Due(env, gs[j].trigger, content, data, row, step)
  }

  lemma FiresIsDue(env: Env, t: Trigger, content: string, data: StepData, row: Session, step: StepId)
    ensures Fires(env, t, content, data, row, step) <==> Due(env, t, content, data, row, step)
  {
    assert |data| == |data.Keys|;
  }

  /** The evaluator answers the first guardrail that is due, or none exactly when none is. */
  lemma {:induction false} FirstGuardrailMeans(env: Env, gs: seq<Guardrail>, content: string, data: StepData, row: Session, step: StepId)
    ensures match FirstGuardrail(env, gs, content, data, row, step)
            case None => NoneDue(env, gs, content, data, row, step)
            case Some(g) => exists k :: FirstDue(env, gs, content, data, row, step, k) && gs[k] == g
  {
    hide Fires, Due;
    if gs != [] {
      FiresIsDue(env, gs[0].trigger, content, data, row, step);
      FirstGuardrailMeans(env, gs[1..], content, data, row, step);
      if Fires(env, gs[0].trigger, content, data, row, step) {
        assert FirstDue(env, gs, content, data, row, step, 0);
      } else if FirstGuardrail(env, gs[1..], content, data, row, step).Some? {
        var k :| FirstDue(env, gs[1..], content, data, row, step, k) && gs[1..][k] == FirstGuardrail(env, gs[1..], content, data, row, step).value;
        forall j | 0 <= j < k + 1 ensures !Due(env, gs[j].trigger, content, data, row, step) {
          assert j > 0 ==> gs[j] == gs[1..][j - 1];
        }
        assert FirstDue(env, gs, content, data, row, step, k + 1);
      } else {
        assert forall j :: 0 < j < |gs| ==> gs[j] == gs[1..][j - 1];
      }
    }
  }
}
