/** Optional values, used wherever the source answers None. */
module Options {
  datatype Option<+T> = None | Some(value: T)
}

/** Parsed workflow documents: the parts of a YAML workflow that the run-time
    engine (megalos_server/tools.py) and the validators (megalos_server/schema.py)
    branch on. */
module Workflows {
  import opened Options

  type Name = string
  type StepId = string
  type Catalogue = map<Name, Workflow>

  // The two sentinels that current_step may hold instead of a step id.
  const COMPLETE: StepId := "__complete__"
  const WORKFLOW_CHANGED: StepId := "__workflow_changed__"

  const DEFAULT_MAX_RETRIES: int := 3

  datatype Field = Field(key: string, value: Json)

  /** A JSON value. Objects keep the order of their keys, as a Python dict does. */
  datatype Json =
    | Null
    | Bool(b: bool)
    | Number(n: real)
    | Str(s: string)
    | List(items: seq<Json>)
    | Object(fields: seq<Field>)

  /** A JSON Schema; what it accepts is a parameter of the model (Env.conforms). */
  datatype Schema = Schema(text: string)

  /** A ref path `step_data.<sid>[.<segment>...]`, split at its dots. */
  datatype Ref = Ref(sid: StepId, path: seq<string>)

  datatype Precondition =
    | WhenEquals(ref: Ref, expected: Json)
    | WhenPresent(ref: Ref)

  datatype ArgField = ArgField(key: string, arg: Arg)

  /** The `args` tree of an MCP step: literals, whole-string refs, lists and mappings. */
  datatype Arg =
    | Literal(value: Json)
    | RefArg(ref: Ref)
    | ArgList(items: seq<Arg>)
    | ArgObject(fields: seq<ArgField>)

  datatype Action = Llm | McpToolCall(args: Arg)

  datatype Artifact = Artifact(id: string, schema: Schema, checkpoint: bool)

  datatype Step = Step(
    id: StepId,
    action: Action,
    precondition: Option<Precondition>,
    call: Option<Name>,
    callContextFrom: Option<Ref>,
    branches: seq<StepId>,
    defaultBranch: Option<StepId>,
    outputSchema: Option<Schema>,
    collect: bool,
    maxRetries: int,
    artifacts: seq<Artifact>,
    outputFrom: string)

  datatype Trigger =
    | KeywordMatch(patterns: seq<string>)
    | StepCount(max: nat)
    | StepRevisit(maxVisits: nat)
    | OutputLength(maxChars: nat)

  datatype GuardAction = Warn | Escalate | ForceBranch(target: StepId)

  datatype Guardrail = Guardrail(id: string, trigger: Trigger, action: GuardAction)

  datatype Workflow = Workflow(name: Name, steps: seq<Step>, guardrails: seq<Guardrail>)

  /** tools.py `_find_step`: position of the first step with this id, or -1. */
  function FindStep(wf: Workflow, id: StepId): (i: int)
    ensures -1 <= i < |wf.steps|
    ensures i >= 0 ==> wf.steps[i].id == id && forall j :: 0 <= j < i ==> wf.steps[j].id != id
    ensures i < 0 ==> forall j :: 0 <= j < |wf.steps| ==> wf.steps[j].id != id
  {
    FindFrom(wf.steps, id, 0)
  }

  function FindFrom(steps: seq<Step>, id: StepId, k: nat): (i: int)
    requires k <= |steps|
    ensures i == -1 || k <= i < |steps|
    ensures i >= 0 ==> steps[i].id == id && forall j :: k <= j < i ==> steps[j].id != id
    ensures i < 0 ==> forall j :: k <= j < |steps| ==> steps[j].id != id
    decreases |steps| - k
  {
    if k == |steps| then -1
    else if steps[k].id == id then k
    else FindFrom(steps, id, k + 1)
  }

  ghost predicate UniqueIds(wf: Workflow) {
    && (forall i, j :: 0 <= i < j < |wf.steps| ==> wf.steps[i].id != wf.steps[j].id)
    && (forall i :: 0 <= i < |wf.steps| ==> wf.steps[i].id != COMPLETE && wf.steps[i].id != WORKFLOW_CHANGED)
  }

  /** The id a pointer holds at position i; the position past the end is COMPLETE. */
  function IdAt(wf: Workflow, i: nat): StepId
    requires i <= |wf.steps|
  {
    if i == |wf.steps| then COMPLETE else wf.steps[i].id
  }

  /** Position of a pointer; anything that is not a step id counts as past the end. */
  function Position(wf: Workflow, id: StepId): (i: nat)
    ensures i <= |wf.steps|
  {
    var k := FindStep(wf, id);
    if k < 0 then |wf.steps| else k
  }

  lemma PositionOfIdAt(wf: Workflow, i: nat)
    requires UniqueIds(wf) && i <= |wf.steps|
    ensures Position(wf, IdAt(wf, i)) == i
    ensures i < |wf.steps| ==> FindStep(wf, wf.steps[i].id) == i
  {
  }

  /** Cross-step rule of schema.py `_validate_workflow_preconditions`: every precondition that
      names a step of the workflow names an earlier one, and the first step has none. */
  ghost predicate BackwardRefs(wf: Workflow) {
    && (|wf.steps| > 0 ==> wf.steps[0].precondition.None?)
    && forall k :: 0 <= k < |wf.steps| && wf.steps[k].precondition.Some?
                   ==> FindStep(wf, wf.steps[k].precondition.value.ref.sid) < k
  }

  predicate Pointer(wf: Workflow, id: StepId) {
    id == COMPLETE || FindStep(wf, id) >= 0
  }

  /** Branch and guardrail targets exist (schema.py cross-reference pass). */
  ghost predicate TargetsExist(wf: Workflow) {
    && (forall s :: s in wf.steps ==>
          && (forall b :: b in s.branches ==> FindStep(wf, b) >= 0)
          && (s.defaultBranch.Some? ==> FindStep(wf, s.defaultBranch.value) >= 0))
    && (forall g :: g in wf.guardrails && g.action.ForceBranch? ==> FindStep(wf, g.action.target) >= 0)
  }

  /** Field rules of schema.py: an MCP step cannot call, carry a schema or have artifacts;
      a call-step with branches declares its default. */
  ghost predicate FieldRules(wf: Workflow) {
    forall s :: s in wf.steps ==>
      && (s.action.McpToolCall? ==> s.call.None? && s.outputSchema.None? && s.artifacts == [])
      && (s.call.Some? ==> s.artifacts == [] && (s.branches != [] ==> s.defaultBranch.Some?))
  }

  /** No MCP step routes backwards; without this the in-line execution need not end. */
  ghost predicate ForwardMcp(wf: Workflow) {
    forall i :: 0 <= i < |wf.steps| && wf.steps[i].action.McpToolCall?
                && wf.steps[i].branches != [] && wf.steps[i].defaultBranch.Some?
                ==> FindStep(wf, wf.steps[i].defaultBranch.value) > i
  }

  ghost predicate WellFormedWorkflow(wf: Workflow) {
    && |wf.steps| > 0
    && UniqueIds(wf)
    && BackwardRefs(wf)
    && TargetsExist(wf)
    && FieldRules(wf)
    && ForwardMcp(wf)
  }
}
