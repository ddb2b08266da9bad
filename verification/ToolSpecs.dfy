/** The session tools of megalos_server/tools.py as functions on the tables: what each call
    answers and what it leaves behind. The methods of Engine are proved against these. */
module ToolSpecs {
  import opened Options
  import opened Workflows
  import opened References
  import opened Stepping
  import opened InlineExecution
  import opened Tables

  const CONTENT_MAX: nat := 262144
  const MAX_ACTIVE: nat := 5
  const MAX_STACK_DEPTH: nat := 3

  /** The live maps a tool call reads. */
  datatype Config = Config(workflows: Catalogue, fingerprints: map<Name, string>)

  ghost predicate WellFormedConfig(cfg: Config) {
    forall n :: n in cfg.workflows ==> WellFormedWorkflow(cfg.workflows[n])
  }

  datatype Code =
    | SessionNotFound | WorkflowChanged | WorkflowNotLoaded | SessionEscalated | WorkflowComplete
    | OutOfOrder | Oversize | SubWorkflowPending | CallStepNeedsEnter | InvalidArgument | UnknownArtifact
    | SkippedPredecessor | ParentOwned | SessionCapExceeded | StackFull | NoFrameToPop | FrameNotPoppable

  /** Response envelopes, down to the keys a client steers by. Crash is an exception no
      handler of the tool layer catches. */
  datatype Reply =
    | Error(code: Code)
    | ValidationError(exhausted: bool)
    | Started(session: Sid, step: StepId)
    | Finished(session: Sid, propagated: bool)
    | Advanced(session: Sid, step: StepId, callTarget: Option<Name>, propagated: bool)
    | ArtifactAccepted(session: Sid, step: StepId)
    | Resumed(session: Sid, child: Sid, step: StepId, callTarget: Option<Name>)
    | ResumedComplete(session: Sid, child: Sid)
    | Revised(session: Sid, step: StepId)
    | Entered(session: Sid, workflowType: Name, step: StepId)
    | Pushed(session: Sid, workflowType: Name, step: StepId)
    | Deleted(session: Sid)
    | Crash

  /** `_fingerprint_for` */
  function FingerprintFor(cfg: Config, env: Env, name: Name): string {
    if name in cfg.fingerprints then cfg.fingerprints[name]
    else if name in cfg.workflows then env.digest(cfg.workflows[name])
    else "pre-versioning"
  }

  // --- _resolve_session ---------------------------------------------------------------

  datatype Access = Refused(db: Db, code: Code) | Ready(session: Session, wf: Workflow)

  /** The session's stamped fingerprint differs from the live one. */
  predicate Stale(cfg: Config, row: Session) {
    row.workflowType in cfg.fingerprints && row.fingerprint != cfg.fingerprints[row.workflowType]
  }

  function Resolve(cfg: Config, db: Db, s: Sid, now: int): Access {
    if s !in db.sessions then Refused(db, SessionNotFound)
    else
      var row := db.sessions[s];
      if row.currentStep == WORKFLOW_CHANGED then Refused(db, WorkflowChanged)
      else if row.workflowType !in cfg.workflows then Refused(db, WorkflowNotLoaded)
      else if Stale(cfg, row) then Refused(SetStep(db, s, WORKFLOW_CHANGED, now), WorkflowChanged)
      else Ready(row, cfg.workflows[row.workflowType])
  }

  // --- Guardrails ------------------------------------------------------------------------

  function VisitsOf(row: Session, step: StepId): nat {
    CountOf(row.visits, step)
  }

  predicate Fires(env: Env, t: Trigger, content: string, data: StepData, row: Session, step: StepId) {
    match t
    case KeywordMatch(patterns) => exists p :: p in patterns && env.matches(p, content)
    case StepCount(max) => |data| >= max
    case StepRevisit(maxVisits) => VisitsOf(row, step) >= maxVisits
    case OutputLength(maxChars) => |content| > maxChars
  }

  /** `_evaluate_guardrails`: the first that fires. */
  function FirstGuardrail(env: Env, gs: seq<Guardrail>, content: string, data: StepData, row: Session, step: StepId): Option<Guardrail> {
    if gs == [] then None
    else if Fires(env, gs[0].trigger, content, data, row, step) then Some(gs[0])
    else FirstGuardrail(env, gs[1..], content, data, row, step)
  }

  // --- Failures of a child -----------------------------------------------------------------

  /** `_wrap_child_failure_into_parent_escalation`, with the check at its call sites. */
  ghost function FailUpwards(db: Db, s: Sid, reply: Reply, now: int): (Db, Reply) {
    match ParentOf(db, s)
    case None => (db, reply)
    case Some(p) =>
      if p in db.sessions then (SetEscalation(db, p, "called_workflow_failed", now), Error(SessionEscalated))
      else (db, Error(SessionNotFound))
  }

  // --- Moving a session past a step -----------------------------------------------------------

  /** Where the pointer goes and the step data it takes along: the skip loop, then the MCP steps. */
  datatype Movement =
    | Blocked                                                        // skip loop raised; nothing written
    | Halted(at: StepId, data: StepData, executed: seq<StepId>)     // cascade inside the MCP run
    | Moved(at: StepId, data: StepData, executed: seq<StepId>)

  function Move(env: Env, wf: Workflow, next: StepId, data: StepData, forceBranched: bool): Movement
    requires UniqueIds(wf) && ForwardMcp(wf)
  {
    match ApplySkips(env, wf, data, next, forceBranched)
    case Raised(_) => Blocked
    case At(q) =>
      var r := AutoRun(env, wf, q, data, []);
      if r.cascaded then Halted(r.at, r.data, r.executed) else Moved(r.at, r.data, r.executed)
  }

  /** The rows after a movement: visits of the executed steps, of the new step, and the session. */
  function WriteMovement(db: Db, s: Sid, m: Movement, now: int): Db {
    match m
    case Blocked => db
    case Halted(at, data, executed) => SetStepAndData(IncVisits(db, s, executed, now), s, at, data, now)
    case Moved(at, data, executed) =>
      var db1 := IncVisits(db, s, executed, now);
      var db2 := if at != COMPLETE then IncVisit(db1, s, at, now) else db1;
      SetStepAndData(db2, s, at, data, now)
  }

  function CallTargetOf(wf: Workflow, step: StepId): Option<Name> {
    var i := FindStep(wf, step);
    if i < 0 then None else wf.steps[i].call
  }

  /** The directive envelope for a session that now stands at a step. */
  function AdvanceReply(s: Sid, wf: Workflow, at: StepId, propagated: bool): Reply {
    if at == COMPLETE then Finished(s, propagated)
    else if FindStep(wf, at) < 0 then Error(InvalidArgument)
    else Advanced(s, at, CallTargetOf(wf, at), propagated)
  }

  // --- Completion of a framed session ------------------------------------------------------------

  /** `_advance_parent`; a blocked skip loop leaves the parent row unwritten. */
  function AdvanceParent(env: Env, db: Db, p: Sid, wf: Workflow, i: nat, data: StepData, now: int): (Db, Reply)
    requires i < |wf.steps| && UniqueIds(wf) && ForwardMcp(wf)
  {
    var step := wf.steps[i];
    if step.branches != [] && step.defaultBranch.None? then (db, Crash)
    else
      var next := if step.branches != [] then step.defaultBranch.value else NextInOrder(wf, i);
      var m := Move(env, wf, next, data, false);
      (WriteMovement(db, p, m, now),
       if m.Moved? then AdvanceReply(p, wf, m.at, true) else Error(SkippedPredecessor))
  }

  function FinalArtifact(wf: Workflow, data: StepData): string
    requires |wf.steps| > 0
  {
    var last := wf.steps[|wf.steps| - 1].id;
    if last in data then data[last] else ""
  }

  /** Whether a finished call child may be handed over, and to which call-step of its parent. */
  datatype Handover = Withheld(db: Db, reply: Reply) | Delivered(row: Session, wf: Workflow, i: nat)

  ghost function HandoverOf(cfg: Config, env: Env, db: Db, child: Sid, p: Sid, artifact: string, now: int): (h: Handover)
    ensures h.Delivered? ==> p in db.sessions && h.row == db.sessions[p] && h.row.workflowType in cfg.workflows
                             && h.wf == cfg.workflows[h.row.workflowType] && h.i < |h.wf.steps|
                             && h.i == FindStep(h.wf, h.row.currentStep) && h.wf.steps[h.i].call.Some?
  {
    match Resolve(cfg, db, p, now)
    case Refused(db1, code) => Withheld(db1, Error(code))
    case Ready(row, wf) =>
      var i := FindStep(wf, row.currentStep);
      if i < 0 || wf.steps[i].call.None? then
        Withheld(SetEscalation(db, p, "sub_workflow_state_drift", now), Error(SessionEscalated))
      else if wf.steps[i].outputSchema.Some? && !env.conforms(wf.steps[i].outputSchema.value, artifact) then
        var (db1, reply) := FailUpwards(db, child, ValidationError(false), now);
        Withheld(db1, reply)
      else Delivered(row, wf, i)
  }

  /** The tables once a call child is gone and its parent's link cleared. */
  function Unlink(db: Db, child: Sid, p: Sid, now: int): Db {
    ClearCalled(DeleteSession(db, child), p, now)
  }

  /** `_propagate_to_parent` */
  ghost function Propagate(cfg: Config, env: Env, db: Db, child: Sid, p: Sid, childWf: Workflow, data: StepData, now: int): (Db, Reply)
    requires WellFormedConfig(cfg) && |childWf.steps| > 0
  {
    var artifact := FinalArtifact(childWf, data);
    match HandoverOf(cfg, env, db, child, p, artifact, now)
    case Withheld(db1, reply) => (db1, reply)
    case Delivered(row, wf, i) =>
      AdvanceParent(env, Unlink(db, child, p, now), p, wf, i, row.stepData[row.currentStep := artifact], now)
  }

  /** `_resume_parent_after_digression` */
  function ResumeOuter(cfg: Config, db: Db, child: Sid, outer: Sid, now: int): (Db, Reply) {
    match Resolve(cfg, db, outer, now)
    case Refused(db1, code) => (db1, Error(code))
    case Ready(row, wf) =>
      var i := FindStep(wf, row.currentStep);
      (DeleteSession(db, child),
       if row.currentStep == COMPLETE || i < 0 then ResumedComplete(outer, child)
       else if wf.steps[i].action.McpToolCall? then Crash
       else Resumed(outer, child, row.currentStep, wf.steps[i].call))
  }

  /** `_auto_resume_on_top_frame_complete` */
  ghost function AutoResume(cfg: Config, env: Env, db: Db, child: Sid, p: Sid, childWf: Workflow, data: StepData, now: int): (Db, Reply)
    requires WellFormedConfig(cfg) && |childWf.steps| > 0
  {
    if child in db.frames && db.frames[child].kind == DigressionFrame then ResumeOuter(cfg, db, child, p, now)
    else Propagate(cfg, env, db, child, p, childWf, data, now)
  }

  // --- submit_step ----------------------------------------------------------------------------------

  /** The pointer a submission asks for, and whether a guardrail forces it; None is an invalid branch. */
  function Requested(wf: Workflow, i: nat, fired: Option<Guardrail>, branch: string): Option<(StepId, bool)>
    requires i < |wf.steps|
  {
    var step := wf.steps[i];
    if fired.Some? && fired.value.action.ForceBranch? then Some((fired.value.action.target, true))
    else if step.branches != [] then
      var target := if branch != "" then branch else if step.defaultBranch.Some? then step.defaultBranch.value else "";
      if target in step.branches then Some((target, false)) else None
    else Some((NextInOrder(wf, i), false))
  }

  /** From stored content to the next directive: guardrails, routing, skipping, MCP steps, and
      the hand-over to the parent when a framed session completes. */
  ghost function Commit(cfg: Config, env: Env, db: Db, s: Sid, row: Session, wf: Workflow, i: nat,
                        content: string, branch: string, now: int): (Db, Reply)
    requires WellFormedConfig(cfg) && WellFormedWorkflow(wf) && i < |wf.steps|
  {
    var step := wf.steps[i];
    var data := row.stepData[step.id := content];
    var fired := FirstGuardrail(env, wf.guardrails, content, data, row, step.id);
    if fired.Some? && fired.value.action.Escalate? then
      FailUpwards(SetData(SetEscalation(db, s, fired.value.id, now), s, data, now), s, Error(SessionEscalated), now)
    else
      match Requested(wf, i, fired, branch)
      case None => (db, Error(InvalidArgument))
      case Some((next, forced)) =>
        var m := Move(env, wf, next, data, forced);
        var db1 := WriteMovement(db, s, m, now);
        if !m.Moved? then FailUpwards(db1, s, Error(SkippedPredecessor), now)
        else if m.at == COMPLETE && ParentOf(db1, s).Some? then
          AutoResume(cfg, env, db1, s, ParentOf(db1, s).value, wf, m.data, now)
        else (db1, AdvanceReply(s, wf, m.at, false))
  }

  function FindArtifact(artifacts: seq<Artifact>, id: string): Option<Artifact> {
    if artifacts == [] then None
    else if artifacts[0].id == id then Some(artifacts[0])
    else FindArtifact(artifacts[1..], id)
  }

  /** The guards of `submit_step` after `_check_str` and once the session resolved, in their order. */
  ghost function SubmitRefusal(env: Env, db: Db, s: Sid, row: Session, wf: Workflow, stepId: StepId, content: string): Option<Code> {
    var i := FindStep(wf, stepId);
    if row.escalation.Some? then Some(SessionEscalated)
    else if row.currentStep == COMPLETE then Some(WorkflowComplete)
    else if stepId != row.currentStep then Some(OutOfOrder)
    else if env.bytes(content) > CONTENT_MAX then Some(Oversize)
    else if TopFrame(db, s).Some? then Some(SubWorkflowPending)
    else if i < 0 then Some(InvalidArgument)
    else if wf.steps[i].call.Some? then Some(CallStepNeedsEnter)
    else None
  }

  /** A step with intermediate artifacts takes the artifact path; only its `output_from`
      artifact advances the session. */
  ghost function SubmitArtifact(cfg: Config, env: Env, db: Db, s: Sid, row: Session, wf: Workflow, i: nat,
                                content: string, branch: string, artifact: string, now: int): (Db, Reply)
    requires WellFormedConfig(cfg) && WellFormedWorkflow(wf) && i < |wf.steps|
  {
    var step := wf.steps[i];
    var def := FindArtifact(step.artifacts, artifact);
    if artifact == "" then (db, Error(InvalidArgument))
    else if def.None? then (db, Error(UnknownArtifact))
    else if !env.conformsArtifact(def.value.schema, content) then (db, ValidationError(false))
    else
      var db1 := if def.value.checkpoint then StoreArtifact(db, s, step.id, artifact, content, now) else db;
      if artifact != step.outputFrom then (db1, ArtifactAccepted(s, step.id))
      else Commit(cfg, env, db1, s, row, wf, i, content, branch, now)
  }

  ghost function SubmitContent(cfg: Config, env: Env, db: Db, s: Sid, row: Session, wf: Workflow, i: nat,
                               content: string, branch: string, now: int): (Db, Reply)
    requires WellFormedConfig(cfg) && WellFormedWorkflow(wf) && i < |wf.steps|
  {
    var step := wf.steps[i];
    if step.outputSchema.Some? && !env.conforms(step.outputSchema.value, content) then
      var db1 := IncRetry(db, s, step.id, now);
      if CountOf(row.retries, step.id) + 1 >= step.maxRetries then FailUpwards(db1, s, ValidationError(true), now)
      else (db1, ValidationError(false))
    else Commit(cfg, env, db, s, row, wf, i, content, branch, now)
  }

  ghost function SubmitStep(cfg: Config, env: Env, db: Db, s: Sid, stepId: StepId, content: string, branch: string,
                            artifact: string, now: int): (Db, Reply)
    requires WellFormedConfig(cfg)
  {
    hide UniqueIds, BackwardRefs, TargetsExist, FieldRules, ForwardMcp;
    if stepId == "" then (db, Error(InvalidArgument))
    else
      match Resolve(cfg, db, s, now)
      case Refused(db1, code) => (db1, Error(code))
      case Ready(row, wf) =>
        match SubmitRefusal(env, db, s, row, wf, stepId, content)
        case Some(code) => (db, Error(code))
        case None =>
          var i := FindStep(wf, stepId);
          if wf.steps[i].artifacts != [] then SubmitArtifact(cfg, env, db, s, row, wf, i, content, branch, artifact, now)
          else SubmitContent(cfg, env, db, s, row, wf, i, content, branch, now)
  }

  // --- start_workflow -----------------------------------------------------------------------------------

  /** The fresh root row with the visit of its first step. */
  function NewRoot(cfg: Config, env: Env, db: Db, name: Name, victims: set<Sid>, now: int): Db
    requires WellFormedConfig(cfg) && name in cfg.workflows
  {
    var first := cfg.workflows[name].steps[0].id;
    IncVisit(CreateRoot(db, victims, name, first, FingerprintFor(cfg, env, name), now), db.nextSid, first, now)
  }

  /** Running the MCP steps at the front of a fresh session. */
  function RunFront(db: Db, s: Sid, wf: Workflow, first: StepId, r: AutoResult, now: int): (Db, Reply) {
    var db1 := IncVisits(db, s, r.executed, now);
    if r.cascaded then (SetStepAndData(db1, s, r.at, r.data, now), Error(SkippedPredecessor))
    else
      var db2 := if r.at != first then SetStepAndData(db1, s, r.at, r.data, now) else db1;
      (if r.at != first && r.at != COMPLETE then IncVisit(db2, s, r.at, now) else db2,
       if r.at == COMPLETE then Finished(s, false)
       else if FindStep(wf, r.at) < 0 then Crash
       else Started(s, r.at))
  }

  function StartWorkflow(cfg: Config, env: Env, db: Db, name: Name, victims: set<Sid>, now: int): (Db, Reply)
    requires WellFormedConfig(cfg)
  {
    if name == "" then (db, Error(InvalidArgument))
    else if name !in cfg.workflows then (db, Error(WorkflowNotLoaded))
    else if CountActive(db) >= MAX_ACTIVE then (db, Error(SessionCapExceeded))
    else
      var wf := cfg.workflows[name];
      var first := wf.steps[0].id;
      RunFront(NewRoot(cfg, env, db, name, victims, now), db.nextSid, wf, first, AutoRun(env, wf, first, map[], []), now)
  }

  // --- revise_step ------------------------------------------------------------------------------------

  ghost function ReviseRefusal(db: Db, s: Sid, row: Session, wf: Workflow, stepId: StepId): Option<Code> {
    var i := FindStep(wf, stepId);
    if s in db.frames then Some(ParentOwned)
    else if i < 0 then Some(InvalidArgument)
    else if stepId !in row.stepData && !(wf.steps[i].call.Some? && TopFrame(db, s).Some?) then Some(InvalidArgument)
    else None
  }

  function StepsAfter(wf: Workflow, i: nat): set<StepId>
    requires i < |wf.steps|
  {
    set k | i < k < |wf.steps| :: wf.steps[k].id
  }

  /** The writes of an accepted revision: later steps are dropped, a revised call-step also
      loses its child and its own entry, and the pointer goes back. */
  ghost function ReviseTo(db: Db, s: Sid, wf: Workflow, i: nat, now: int): Db
    requires i < |wf.steps|
  {
    var step := wf.steps[i];
    var db1 := DropData(db, s, StepsAfter(wf, i), now);
    var db2 := if step.call.Some? && TopFrame(db, s).Some? then Unlink(db1, TopFrame(db, s).value, s, now) else db1;
    var db3 := if step.call.Some? then DropData(db2, s, {step.id}, now) else db2;
    SetStep(db3, s, step.id, now)
  }

  ghost function ReviseStep(cfg: Config, db: Db, s: Sid, stepId: StepId, now: int): (Db, Reply) {
    if stepId == "" then (db, Error(InvalidArgument))
    else
      match Resolve(cfg, db, s, now)
      case Refused(db1, code) => (db1, Error(code))
      case Ready(row, wf) =>
        match ReviseRefusal(db, s, row, wf, stepId)
        case Some(code) => (db, Error(code))
        case None =>
          var i := FindStep(wf, stepId);
          (ReviseTo(db, s, wf, i, now), if wf.steps[i].action.McpToolCall? then Crash else Revised(s, stepId))
  }

  // --- enter_sub_workflow --------------------------------------------------------------------------------

  ghost function EnterRefusal(cfg: Config, env: Env, db: Db, p: Sid, row: Session, wf: Workflow, stepId: StepId): Option<Code> {
    var i := FindStep(wf, stepId);
    if row.currentStep == COMPLETE then Some(WorkflowComplete)
    else if row.escalation.Some? then Some(SessionEscalated)
    else if row.currentStep != stepId then Some(OutOfOrder)
    else if i < 0 || wf.steps[i].call.None? then Some(InvalidArgument)
    else if TopFrame(db, p).Some? then Some(SubWorkflowPending)
    else if wf.steps[i].call.value !in cfg.workflows then Some(WorkflowNotLoaded)
    else if wf.steps[i].callContextFrom.Some?
            && !(var r := ResolveRef(env, wf.steps[i].callContextFrom.value, row.stepData, {});
                 r.Found? && r.value != Null) then Some(InvalidArgument)
    else None
  }

  /** A child session created above a parent, with the visit of its first step. */
  function SpawnChild(cfg: Config, env: Env, db: Db, victims: set<Sid>, target: Name, parent: Sid, kind: FrameKind,
                      callStep: Option<StepId>, maxDepth: Option<nat>, now: int): Db
    requires WellFormedConfig(cfg) && target in cfg.workflows
  {
    var first := cfg.workflows[target].steps[0].id;
    IncVisit(CreateChild(db, victims, target, first, parent, kind, callStep, maxDepth, FingerprintFor(cfg, env, target), now),
             db.nextSid, first, now)
  }

  /** The writes of an accepted call: the child, then the link from its parent. */
  function CallChild(cfg: Config, env: Env, db: Db, victims: set<Sid>, target: Name, p: Sid, stepId: StepId, now: int): Db
    requires WellFormedConfig(cfg) && target in cfg.workflows
  {
    LinkCalled(SpawnChild(cfg, env, db, victims, target, p, CallFrame, None, None, now), p, db.nextSid, stepId, now)
  }

  ghost function EnterSubWorkflow(cfg: Config, env: Env, db: Db, p: Sid, stepId: StepId, victims: set<Sid>, now: int): (Db, Reply)
    requires WellFormedConfig(cfg)
  {
    hide UniqueIds, BackwardRefs, TargetsExist, FieldRules, ForwardMcp;
    if stepId == "" then (db, Error(InvalidArgument))
    else
      match Resolve(cfg, db, p, now)
      case Refused(db1, code) => (db1, Error(code))
      case Ready(row, wf) =>
        match EnterRefusal(cfg, env, db, p, row, wf, stepId)
        case Some(code) => (db, Error(code))
        case None =>
          var target := wf.steps[FindStep(wf, stepId)].call.value;
          var first := cfg.workflows[target].steps[0];
          (CallChild(cfg, env, db, victims, target, p, stepId, now),
           if p in victims then Error(SessionNotFound)
           else if first.action.McpToolCall? then Crash
           else Entered(db.nextSid, target, first.id))
  }

  // --- push_flow, pop_flow, delete_session ------------------------------------------------------------------

  ghost function PushRefusal(cfg: Config, db: Db, s: Sid, row: Session, name: Name, pausedAt: StepId): Option<Code> {
    if row.currentStep == COMPLETE then Some(WorkflowComplete)
    else if row.escalation.Some? then Some(SessionEscalated)
    else if row.currentStep != pausedAt then Some(OutOfOrder)
    else if TopFrame(db, s).Some? then Some(SubWorkflowPending)
    else if name !in cfg.workflows then Some(WorkflowNotLoaded)
    else if StackDepth(db, RootOf(db, s)) >= MAX_STACK_DEPTH then Some(StackFull)
    else if CountActive(db) >= MAX_ACTIVE then Some(SessionCapExceeded)
    else None
  }

  ghost function PushFlow(cfg: Config, env: Env, db: Db, s: Sid, name: Name, pausedAt: StepId, victims: set<Sid>, now: int): (Db, Reply)
    requires WellFormedConfig(cfg)
  {
    hide UniqueIds, BackwardRefs, TargetsExist, FieldRules, ForwardMcp;
    if name == "" || pausedAt == "" then (db, Error(InvalidArgument))
    else
      match Resolve(cfg, db, s, now)
      case Refused(db1, code) => (db1, Error(code))
      case Ready(row, wf) =>
        match PushRefusal(cfg, db, s, row, name, pausedAt)
        case Some(code) => (db, Error(code))
        case None =>
          var first := cfg.workflows[name].steps[0];
          if PushFull(db, victims, s, Some(MAX_STACK_DEPTH)) then (db, Error(StackFull))
          else
            (SpawnChild(cfg, env, db, victims, name, s, DigressionFrame, Some(pausedAt), Some(MAX_STACK_DEPTH), now),
             if first.action.McpToolCall? then Crash else Pushed(db.nextSid, name, first.id))
  }

  ghost function PopFlow(cfg: Config, db: Db, s: Sid, now: int): (Db, Reply) {
    match Resolve(cfg, db, s, now)
    case Refused(db1, code) => (db1, Error(code))
    case Ready(row, wf) =>
      if row.escalation.Some? then (db, Error(SessionEscalated))
      else if s !in db.frames then (db, Error(NoFrameToPop))
      else if db.frames[s].kind == CallFrame then (db, Error(FrameNotPoppable))
      else
        match ParentOf(db, s)
        case None => (db, Crash)
        case Some(outer) => ResumeOuter(cfg, db, s, outer, now)
  }

  function DeleteTool(db: Db, s: Sid): (Db, Reply) {
    if s in db.frames then (db, Error(ParentOwned))
    else if s !in db.sessions then (db, Error(SessionNotFound))
    else (DeleteSession(db, s), Deleted(s))
  }
}
