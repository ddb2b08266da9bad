/** Cross-step validation of preconditions: megalos_server/schema.py
    `_validate_workflow_preconditions`. */
module Validators {
  import opened Options
  import opened Workflows

  datatype PreconditionError =
    | OnFirstStep
    | ForwardRef(k: nat, m: nat)
    | SubPathWithoutSchema(k: nat, m: nat)

  /** Where the validator's own index puts an id: its last occurrence, or -1. */
  function LastStep(wf: Workflow, id: StepId): (i: int)
    ensures -1 <= i < |wf.steps|
    ensures i >= 0 ==> wf.steps[i].id == id && forall j :: i < j < |wf.steps| ==> wf.steps[j].id != id
    ensures i < 0 ==> forall j :: 0 <= j < |wf.steps| ==> wf.steps[j].id != id
  {
    LastBefore(wf.steps, id, |wf.steps|)
  }

  function LastBefore(steps: seq<Step>, id: StepId, k: nat): (i: int)
    requires k <= |steps|
    ensures -1 <= i < k
    ensures i >= 0 ==> steps[i].id == id && forall j :: i < j < k ==> steps[j].id != id
    ensures i < 0 ==> forall j :: 0 <= j < k ==> steps[j].id != id
  {
    if k == 0 then -1
    else if steps[k - 1].id == id then k - 1
    else LastBefore(steps, id, k - 1)
  }

  /** A step whose stored content is known to be structured. */
  predicate Structured(step: Step) {
    step.outputSchema.Some? || step.collect || step.action.McpToolCall?
  }

  /** The error step k deserves, by the rules in their order. */
  function ErrorAt(wf: Workflow, k: nat): Option<PreconditionError>
    requires k < |wf.steps|
  {
    match wf.steps[k].precondition
    case None => None
    case Some(pc) =>
      var m := LastStep(wf, pc.ref.sid);
      if k == 0 then Some(OnFirstStep)
      else if m < 0 then None
      else if m >= k then Some(ForwardRef(k, m))
      else if pc.ref.path != [] && !Structured(wf.steps[m]) then Some(SubPathWithoutSchema(k, m))
      else None
  }

  /** Sub-path refs to steps of the workflow point into structured content. */
  ghost predicate SubPathsStructured(wf: Workflow) {
    forall k :: 0 <= k < |wf.steps| && wf.steps[k].precondition.Some? ==>
      var ref := wf.steps[k].precondition.value.ref;
      ref.path != [] && FindStep(wf, ref.sid) >= 0 ==>
        var target := wf.steps[FindStep(wf, ref.sid)]; target.outputSchema.Some? || target.collect || target.action.McpToolCall?
  }

  /** Position m holds the last step with this id. */
  ghost predicate LastWith(wf: Workflow, id: StepId, m: int) {
    0 <= m < |wf.steps| && wf.steps[m].id == id && forall j :: m < j < |wf.steps| ==> wf.steps[j].id != id
  }

  /** What each error says of its step: a precondition on the first step; a ref to the step itself or a
      later one; a sub-path into an earlier step with no schema, no collection and no MCP result. */
  lemma ErrorsMean(wf: Workflow, k: nat, m: nat)
    requires k < |wf.steps|
    ensures ErrorAt(wf, k) == Some(OnFirstStep) <==> k == 0 && wf.steps[k].precondition.Some?
    ensures ErrorAt(wf, k) == Some(ForwardRef(k, m)) <==>
            k > 0 && wf.steps[k].precondition.Some? && LastWith(wf, wf.steps[k].precondition.value.ref.sid, m) && m >= k
    ensures ErrorAt(wf, k) == Some(SubPathWithoutSchema(k, m)) <==>
            k > 0 && wf.steps[k].precondition.Some? && LastWith(wf, wf.steps[k].precondition.value.ref.sid, m) && m < k
            && wf.steps[k].precondition.value.ref.path != []
            && wf.steps[m].outputSchema.None? && !wf.steps[m].collect && wf.steps[m].action.Llm?
    ensures var e := ErrorAt(wf, k);
            e.Some? && e.value != OnFirstStep ==> e.value.k == k
  {
    if wf.steps[k].precondition.Some? {
      assert LastStep(wf, wf.steps[k].precondition.value.ref.sid) == m <==> LastWith(wf, wf.steps[k].precondition.value.ref.sid, m);
    }
  }

  /** The validator's index of ids to positions. */
  method IndexSteps(wf: Workflow) returns (index: map<StepId, nat>)
    ensures forall id :: id in index <==> LastStep(wf, id) >= 0
    ensures forall id :: id in index ==> index[id] == LastStep(wf, id)
  {
    index := map[];
    for i := 0 to |wf.steps|
      invariant forall id :: id in index <==> LastBefore(wf.steps, id, i) >= 0
      invariant forall id :: id in index ==> index[id] == LastBefore(wf.steps, id, i)
    {
      index := index[wf.steps[i].id := i];
    }
  }

  /** No errors exactly when every step deserves none; and every error is one that its step deserves. */
  method ValidatePreconditions(wf: Workflow) returns (errors: seq<PreconditionError>)
    ensures errors == [] <==> forall k :: 0 <= k < |wf.steps| ==> ErrorAt(wf, k) == None
    ensures forall e :: e in errors ==> exists k :: 0 <= k < |wf.steps| && ErrorAt(wf, k) == Some(e)
  {
    hide LastStep;
    var index := IndexSteps(wf);
    errors := [];
    for k := 0 to |wf.steps|
      invariant errors == [] <==> forall j :: 0 <= j < k ==> ErrorAt(wf, j) == None
      invariant forall e :: e in errors ==> exists j :: 0 <= j < k && ErrorAt(wf, j) == Some(e)
    {
      var step := wf.steps[k];
      if step.precondition.None? {
        continue;
      }
      var ref := step.precondition.value.ref;
      var found: Option<PreconditionError> := None;
      if k == 0 {
        found := Some(OnFirstStep);
      } else if ref.sid in index {
        var m := index[ref.sid];
        if m >= k {
          found := Some(ForwardRef(k, m));
        } else if ref.path != [] {
          var target := wf.steps[m];
          if target.outputSchema.None? && !target.collect && target.action.Llm? {
            found := Some(SubPathWithoutSchema(k, m));
          }
        }
      }
      assert found == ErrorAt(wf, k);
      if found.Some? {
        errors := errors + [found.value];
      }
    }
  }

  lemma LastIsFirst(wf: Workflow, id: StepId)
    ensures FindStep(wf, id) <= LastStep(wf, id)
    ensures UniqueIds(wf) ==> FindStep(wf, id) == LastStep(wf, id)
  {
  }

  /** A workflow the validator accepts has strictly backward refs in the sense of the run-time
      engine, which takes the first step with an id, whether or not ids repeat; when they do not,
      it accepts exactly those, with structured sub-paths. */
  lemma AcceptedIsBackward(wf: Workflow)
    ensures (forall k :: 0 <= k < |wf.steps| ==> ErrorAt(wf, k) == None) ==> BackwardRefs(wf)
    ensures UniqueIds(wf) ==>
              ((forall k :: 0 <= k < |wf.steps| ==> ErrorAt(wf, k) == None) <==> BackwardRefs(wf) && SubPathsStructured(wf))
  {
    forall k | 0 <= k < |wf.steps| && wf.steps[k].precondition.Some?
      ensures ErrorAt(wf, k) == None ==> FindStep(wf, wf.steps[k].precondition.value.ref.sid) < k
      ensures UniqueIds(wf) ==>
                (ErrorAt(wf, k) == None <==>
                   k > 0 && FindStep(wf, wf.steps[k].precondition.value.ref.sid) < k
                   && var ref := wf.steps[k].precondition.value.ref;
                      (ref.path != [] && FindStep(wf, ref.sid) >= 0 ==> Structured(wf.steps[FindStep(wf, ref.sid)])))
    {
      LastIsFirst(wf, wf.steps[k].precondition.value.ref.sid);
    }
    if |wf.steps| > 0 && wf.steps[0].precondition.Some? {
      assert ErrorAt(wf, 0) == Some(OnFirstStep);
    }
  }
}
