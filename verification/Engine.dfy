/** The session tools of megalos_server/tools.py as methods over the store. Each is proved to
    answer and to leave behind exactly what its specification in ToolSpecs says. */
module Engines {
  import opened Options
  import opened Workflows
  import opened References
  import opened McpArguments
  import opened Stepping
  import opened InlineExecution
  import opened Tables
  import opened ToolSpecs
  import opened Guardrails
  import opened StackSafety
  import opened Soundness
  import opened SessionStore

  datatype Resolution = Denied(code: Code) | Granted(session: Session, wf: Workflow)

  class Engine {
    const store: Store
    const env: Env
    var cfg: Config
    var sessionCap: int

    constructor (store: Store, env: Env, cfg: Config, sessionCap: int)
      requires WellFormedConfig(cfg) && Sound(store.Tables())
      ensures Valid() && this.store == store && this.env == env && this.cfg == cfg && this.sessionCap == sessionCap
    {
      this.store, this.env, this.cfg, this.sessionCap := store, env, cfg, sessionCap;
    }

    ghost predicate Valid()
      reads this, store
    {
      WellFormedConfig(cfg) && Sound(store.Tables())
    }

    // --- Helpers ---------------------------------------------------------------------------

    /** `_resolve_session` */
    method ResolveSession(s: Sid, now: int) returns (r: Resolution)
      modifies store`sessions
      ensures match Resolve(cfg, old(store.Tables()), s, now)
              case Refused(db, code) => r == Denied(code) && store.Tables() == db
              case Ready(row, wf) => r == Granted(row, wf) && store.Tables() == old(store.Tables())
    {
      if s !in store.sessions {
        return Denied(SessionNotFound);
      }
      var row := store.sessions[s];
      if row.currentStep == WORKFLOW_CHANGED {
        return Denied(WorkflowChanged);
      }
      if row.workflowType !in cfg.workflows {
        return Denied(WorkflowNotLoaded);
      }
      if row.workflowType in cfg.fingerprints && row.fingerprint != cfg.fingerprints[row.workflowType] {
        var _ := store.UpdateSession(s, Some(WORKFLOW_CHANGED), None, now);
        return Denied(WorkflowChanged);
      }
      return Granted(row, cfg.workflows[row.workflowType]);
    }

    /** `_evaluate_guardrails`: the first guardrail that is due, none when none is. */
    method EvaluateGuardrails(gs: seq<Guardrail>, content: string, data: StepData, row: Session, step: StepId)
        returns (fired: Option<Guardrail>)
      ensures fired == FirstGuardrail(env, gs, content, data, row, step)
      ensures fired.None? <==> NoneDue(env, gs, content, data, row, step)
      ensures fired.Some? <==> exists k :: FirstDue(env, gs, content, data, row, step, k) && fired == Some(gs[k])
    {
      FirstGuardrailMeans(env, gs, content, data, row, step);
      var i := 0;
      while i < |gs|
        invariant 0 <= i <= |gs|
        invariant FirstGuardrail(env, gs, content, data, row, step) == FirstGuardrail(env, gs[i..], content, data, row, step)
      {
        if Fires(env, gs[i].trigger, content, data, row, step) {
          return Some(gs[i]);
        }
        assert gs[i..][1..] == gs[i + 1..];
        i := i + 1;
      }
      return None;
    }

    /** `_auto_execute_mcp_steps`; the step data is passed on to the caller for persisting. */
    method AutoExecute(s: Sid, wf: Workflow, pointer: StepId, start: StepData, now: int) returns (r: AutoResult)
      requires UniqueIds(wf) && ForwardMcp(wf)
      modifies store`sessions
      ensures r == AutoRun(env, wf, pointer, start, [])
      ensures store.Tables() == IncVisits(old(store.Tables()), s, r.executed, now)
    {
      hide ExecuteMcpStep, SkippedSteps, ApplySkips;
      var next, data, executed: seq<StepId> := pointer, start, [];
      while next != COMPLETE
        invariant AutoRun(env, wf, pointer, start, []) == AutoRun(env, wf, next, data, executed)
        invariant store.Tables() == IncVisits(old(store.Tables()), s, executed, now)
        decreases |wf.steps| - Position(wf, next), FindStep(wf, next) >= 0
      {
        var idx := FindStep(wf, next);
        if idx < 0 || wf.steps[idx].action.Llm? {
          return AutoResult(next, data, executed, false);
        }
        var step := wf.steps[idx];
        var listed := ComputeSkippedSteps(env, wf, data);
        var envelope := ExecuteMcpStep(env, step.id, step.action.args, data, Elements(listed));
        if envelope.None? {
          return AutoResult(next, data, executed, true);
        }
        data := data[step.id := env.dumps(envelope.value)];
        var _ := store.IncrementVisit(s, step.id, now);
        executed := executed + [step.id];
        assert executed[..|executed| - 1] + [step.id] == executed;
        AfterMcpForward(wf, idx);
        var after := if step.branches != [] then (if step.defaultBranch.Some? then step.defaultBranch.value else COMPLETE)
                     else NextInOrder(wf, idx);
        ApplySkipsForward(env, wf, data, after, false);
        SkipLoopEnds(env, wf, data, after, false);
        var skipped := ApplySkipLoop(env, wf, data, after, false);
        if skipped.Raised? {
          return AutoResult(after, data, executed, true);
        }
        next := skipped.id;
      }
      r := AutoResult(next, data, executed, false);
    }

    /** `_wrap_child_failure_into_parent_escalation`, with its check for a parent. */
    method Fail(s: Sid, reply: Reply, now: int) returns (r: Reply)
      requires Sound(store.Tables())
      modifies store`sessions
      ensures (store.Tables(), r) == FailUpwards(old(store.Tables()), s, reply, now)
    {
      var p := store.Parent(s);
      if p.None? {
        return reply;
      }
      var found := store.Escalate(p.value, "called_workflow_failed", now);
      r := if found then Error(SessionEscalated) else Error(SessionNotFound);
    }

    /** The skip loop, the MCP steps and the writes that follow them. */
    method MoveOn(s: Sid, wf: Workflow, next: StepId, data: StepData, forced: bool, now: int) returns (m: Movement)
      requires UniqueIds(wf) && ForwardMcp(wf)
      modifies store`sessions
      ensures m == Move(env, wf, next, data, forced)
      ensures store.Tables() == WriteMovement(old(store.Tables()), s, m, now)
    {
      hide ApplySkips, AutoRun, IncVisits, SetStepAndData;
      SkipLoopEnds(env, wf, data, next, forced);
      var skipped := ApplySkipLoop(env, wf, data, next, forced);
      if skipped.Raised? {
        return Blocked;
      }
      var r := AutoExecute(s, wf, skipped.id, data, now);
      if r.cascaded {
        var _ := store.UpdateSession(s, Some(r.at), Some(r.data), now);
        return Halted(r.at, r.data, r.executed);
      }
      if r.at != COMPLETE {
        var _ := store.IncrementVisit(s, r.at, now);
      }
      var _ := store.UpdateSession(s, Some(r.at), Some(r.data), now);
      m := Moved(r.at, r.data, r.executed);
    }

    // --- Completion of a framed session ---------------------------------------------------------

    /** `_advance_parent` */
    method AdvanceTheParent(p: Sid, wf: Workflow, i: nat, data: StepData, now: int) returns (reply: Reply)
      requires i < |wf.steps| && UniqueIds(wf) && ForwardMcp(wf)
      modifies store`sessions
      ensures (store.Tables(), reply) == AdvanceParent(env, old(store.Tables()), p, wf, i, data, now)
    {
      hide Move, WriteMovement;
      var step := wf.steps[i];
      var next := NextInOrder(wf, i);
      if step.branches != [] {
        if step.defaultBranch.None? {
          return Crash;
        }
        next := step.defaultBranch.value;
      }
      var m := MoveOn(p, wf, next, data, false, now);
      reply := if m.Moved? then AdvanceReply(p, wf, m.at, true) else Error(SkippedPredecessor);
    }

    /** `_propagate_to_parent` */
    method PropagateToParent(child: Sid, childWf: Workflow, data: StepData, now: int) returns (reply: Reply)
      requires Valid() && |childWf.steps| > 0 && ParentOf(store.Tables(), child).Some?
      modifies store`sessions, store`frames
      ensures (store.Tables(), reply) ==
              Propagate(cfg, env, old(store.Tables()), child, ParentOf(old(store.Tables()), child).value, childWf, data, now)
    {
      hide AdvanceParent, SoundFrames, ParentOf, BackwardRefs, TargetsExist, FieldRules, UniqueIds, ForwardMcp;
      var parent := store.Parent(child);
      var p := parent.value;
      var artifact := FinalArtifact(childWf, data);
      var access := ResolveSession(p, now);
      if access.Denied? {
        return Error(access.code);
      }
      var row, wf := access.session, access.wf;
      var idx := FindStep(wf, row.currentStep);
      if idx < 0 || wf.steps[idx].call.None? {
        var _ := store.Escalate(p, "sub_workflow_state_drift", now);
        return Error(SessionEscalated);
      }
      if wf.steps[idx].outputSchema.Some? && !env.conforms(wf.steps[idx].outputSchema.value, artifact) {
        reply := Fail(child, ValidationError(false), now);
        return;
      }
      var _ := store.Delete(child);
      var _ := store.SetCalled(p, None, None, now);
      reply := AdvanceTheParent(p, wf, idx, row.stepData[row.currentStep := artifact], now);
    }

    /** `_resume_parent_after_digression` */
    method ResumeAfterDigression(child: Sid, now: int) returns (reply: Reply)
      requires Valid() && ParentOf(store.Tables(), child).Some?
      modifies store`sessions, store`frames
      ensures (store.Tables(), reply) ==
              ResumeOuter(cfg, old(store.Tables()), child, ParentOf(old(store.Tables()), child).value, now)
    {
      hide SoundFrames, ParentOf, WellFormedWorkflow;
      var parent := store.Parent(child);
      var outer := parent.value;
      var access := ResolveSession(outer, now);
      if access.Denied? {
        return Error(access.code);
      }
      var _ := store.Delete(child);
      var current, wf := access.session.currentStep, access.wf;
      var idx := FindStep(wf, current);
      if current == COMPLETE || idx < 0 {
        return ResumedComplete(outer, child);
      }
      reply := if wf.steps[idx].action.McpToolCall? then Crash else Resumed(outer, child, current, wf.steps[idx].call);
    }

    /** `_auto_resume_on_top_frame_complete` */
    method ResumeOnComplete(child: Sid, childWf: Workflow, data: StepData, now: int) returns (reply: Reply)
      requires Valid() && |childWf.steps| > 0 && ParentOf(store.Tables(), child).Some?
      modifies store`sessions, store`frames
      ensures (store.Tables(), reply) ==
              AutoResume(cfg, env, old(store.Tables()), child, ParentOf(old(store.Tables()), child).value, childWf, data, now)
    {
      hide Propagate, ResumeOuter, Sound, ParentOf;
      if child in store.frames && store.frames[child].kind == DigressionFrame {
        reply := ResumeAfterDigression(child, now);
      } else {
        reply := PropagateToParent(child, childWf, data, now);
      }
    }

    // --- submit_step -------------------------------------------------------------------------------

    /** The common tail of both submission paths, from the stored content on. */
    method CommitContent(s: Sid, row: Session, wf: Workflow, i: nat, content: string, branch: string, now: int) returns (reply: Reply)
      requires Valid() && WellFormedWorkflow(wf) && i < |wf.steps|
      modifies store`sessions, store`frames
      ensures (store.Tables(), reply) == Commit(cfg, env, old(store.Tables()), s, row, wf, i, content, branch, now)
    {
      hide Move, WriteMovement, AutoResume, SoundFrames, ParentOf, FailUpwards, BackwardRefs, TargetsExist,
           FieldRules, UniqueIds, ForwardMcp;
      var step := wf.steps[i];
      var data := row.stepData[step.id := content];
      var fired := EvaluateGuardrails(wf.guardrails, content, data, row, step.id);
      if fired.Some? && fired.value.action.Escalate? {
        SetEscalationSameShape(store.Tables(), s, fired.value.id, now);
        SameShapeSound(store.Tables(), SetEscalation(store.Tables(), s, fired.value.id, now));
        var _ := store.Escalate(s, fired.value.id, now);
        SetDataSameShape(store.Tables(), s, data, now);
        SameShapeSound(store.Tables(), SetData(store.Tables(), s, data, now));
        var _ := store.UpdateSession(s, None, Some(data), now);
        reply := Fail(s, Error(SessionEscalated), now);
        return;
      }
      var requested := Requested(wf, i, fired, branch);
      if requested.None? {
        return Error(InvalidArgument);
      }
      var m := MoveOn(s, wf, requested.value.0, data, requested.value.1, now);
      MovementSameShape(old(store.Tables()), s, m, now);
      SameShapeSound(old(store.Tables()), store.Tables());
      if !m.Moved? {
        reply := Fail(s, Error(SkippedPredecessor), now);
        return;
      }
      var parent := store.Parent(s);
      if m.at == COMPLETE && parent.Some? {
        reply := ResumeOnComplete(s, wf, m.data, now);
      } else {
        reply := AdvanceReply(s, wf, m.at, false);
      }
    }

    /** The artifact path of `submit_step`. */
    method SubmitIntermediate(s: Sid, row: Session, wf: Workflow, i: nat, content: string, branch: string, artifact: string, now: int)
        returns (reply: Reply)
      requires Valid() && WellFormedWorkflow(wf) && i < |wf.steps|
      modifies store`sessions, store`frames
      ensures (store.Tables(), reply) == SubmitArtifact(cfg, env, old(store.Tables()), s, row, wf, i, content, branch, artifact, now)
    {
      hide Commit, SoundFrames, BackwardRefs, TargetsExist, FieldRules, UniqueIds, ForwardMcp, StoreArtifact;
      var step := wf.steps[i];
      if artifact == "" {
        return Error(InvalidArgument);
      }
      var def := FindArtifact(step.artifacts, artifact);
      if def.None? {
        return Error(UnknownArtifact);
      }
      if !env.conformsArtifact(def.value.schema, content) {
        return ValidationError(false);
      }
      if def.value.checkpoint {
        StoreArtifactSameShape(store.Tables(), s, step.id, artifact, content, now);
        SameShapeSound(store.Tables(), StoreArtifact(store.Tables(), s, step.id, artifact, content, now));
        var _ := store.SaveArtifact(s, step.id, artifact, content, now);
      }
      if artifact != step.outputFrom {
        return ArtifactAccepted(s, step.id);
      }
      reply := CommitContent(s, row, wf, i, content, branch, now);
    }

    /** The path of `submit_step` for steps without intermediate artifacts. */
    method SubmitPlain(s: Sid, row: Session, wf: Workflow, i: nat, content: string, branch: string, now: int) returns (reply: Reply)
      requires Valid() && WellFormedWorkflow(wf) && i < |wf.steps|
      requires s in store.sessions && row == store.sessions[s]
      modifies store`sessions, store`frames
      ensures (store.Tables(), reply) == SubmitContent(cfg, env, old(store.Tables()), s, row, wf, i, content, branch, now)
    {
      hide Commit, SoundFrames, BackwardRefs, TargetsExist, FieldRules, UniqueIds, ForwardMcp, FailUpwards;
      var step := wf.steps[i];
      if step.outputSchema.Some? && !env.conforms(step.outputSchema.value, content) {
        IncRetrySameShape(store.Tables(), s, step.id, now);
        SameShapeSound(store.Tables(), IncRetry(store.Tables(), s, step.id, now));
        var count := store.IncrementRetry(s, step.id, now);
        if count.value >= step.maxRetries {
          reply := Fail(s, ValidationError(true), now);
        } else {
          reply := ValidationError(false);
        }
        return;
      }
      reply := CommitContent(s, row, wf, i, content, branch, now);
    }

    /** `submit_step` */
    method Submit(s: Sid, stepId: StepId, content: string, branch: string, artifact: string, now: int) returns (reply: Reply)
      requires Valid()
      modifies store`sessions, store`frames
      ensures (store.Tables(), reply) == SubmitStep(cfg, env, old(store.Tables()), s, stepId, content, branch, artifact, now)
      ensures Valid()
    {
      hide SubmitArtifact, SubmitContent, SoundFrames, BackwardRefs, TargetsExist, FieldRules, UniqueIds,
           ForwardMcp, TopFrame;
      SubmitSound(cfg, env, store.Tables(), s, stepId, content, branch, artifact, now);
      if stepId == "" {
        return Error(InvalidArgument);
      }
      var access := ResolveSession(s, now);
      if access.Denied? {
        return Error(access.code);
      }
      var row, wf := access.session, access.wf;
      if row.escalation.Some? {
        return Error(SessionEscalated);
      }
      if row.currentStep == COMPLETE {
        return Error(WorkflowComplete);
      }
      if stepId != row.currentStep {
        return Error(OutOfOrder);
      }
      if env.bytes(content) > CONTENT_MAX {
        return Error(Oversize);
      }
      var idx := FindStep(wf, stepId);
      var top := store.TopFrameFor(s);
      if top.Some? {
        return Error(SubWorkflowPending);
      }
      if idx < 0 {
        return Error(InvalidArgument);
      }
      if wf.steps[idx].call.Some? {
        return Error(CallStepNeedsEnter);
      }
      if wf.steps[idx].artifacts != [] {
        reply := SubmitIntermediate(s, row, wf, idx, content, branch, artifact, now);
      } else {
        reply := SubmitPlain(s, row, wf, idx, content, branch, now);
      }
    }

    // --- start_workflow -------------------------------------------------------------------------------

    /** `_fingerprint_for` */
    method Fingerprint(name: Name) returns (fp: string)
      ensures fp == FingerprintFor(cfg, env, name)
    {
      if name in cfg.fingerprints {
        return cfg.fingerprints[name];
      }
      fp := if name in cfg.workflows then env.digest(cfg.workflows[name]) else "pre-versioning";
    }

    /** `start_workflow` */
    method Start(name: Name, now: int) returns (reply: Reply, evicted: set<Sid>)
      requires Valid()
      modifies store
      ensures (store.Tables(), reply) == StartWorkflow(cfg, env, old(store.Tables()), name, evicted, now)
      ensures store.nextSid != old(store.nextSid) ==> Victims(old(store.Tables()), sessionCap, evicted)
      ensures store.nextSid == old(store.nextSid) ==> evicted == {}
      ensures Valid()
    {
      hide AutoRun, SoundFrames, WellFormedWorkflow, CreateRoot, IncVisits, Victims;
      evicted := {};
      if name == "" {
        return Error(InvalidArgument), {};
      }
      if name !in cfg.workflows {
        return Error(WorkflowNotLoaded), {};
      }
      var active := store.Active();
      if active >= MAX_ACTIVE {
        return Error(SessionCapExceeded), {};
      }
      var wf := cfg.workflows[name];
      assert WellFormedWorkflow(wf);
      FirstStep(wf);
      var first := wf.steps[0];
      var fp := Fingerprint(name);
      var created;
      created, evicted := store.CreateSession(sessionCap, name, first.id, None, CallFrame, None, None, fp, now);
      StartSound(cfg, env, old(store.Tables()), name, evicted, now);
      var s := created.sid;
      var _ := store.IncrementVisit(s, first.id, now);
      var r := AutoExecute(s, wf, first.id, map[], now);
      if r.cascaded {
        var _ := store.UpdateSession(s, Some(r.at), Some(r.data), now);
        return Error(SkippedPredecessor), evicted;
      }
      if r.at != first.id {
        var _ := store.UpdateSession(s, Some(r.at), Some(r.data), now);
        if r.at != COMPLETE {
          var _ := store.IncrementVisit(s, r.at, now);
        }
      }
      if r.at == COMPLETE {
        reply := Finished(s, false);
      } else {
        reply := if FindStep(wf, r.at) < 0 then Crash else Started(s, r.at);
      }
    }

    // --- revise_step -----------------------------------------------------------------------------------

    /** `revise_step` */
    method Revise(s: Sid, stepId: StepId, now: int) returns (reply: Reply)
      requires Valid()
      modifies store`sessions, store`frames
      ensures (store.Tables(), reply) == ReviseStep(cfg, old(store.Tables()), s, stepId, now)
      ensures Valid()
    {
      hide SoundFrames, WellFormedWorkflow, TopFrame, ReviseTo;
      ReviseSound(cfg, store.Tables(), s, stepId, now);
      if stepId == "" {
        return Error(InvalidArgument);
      }
      var access := ResolveSession(s, now);
      if access.Denied? {
        return Error(access.code);
      }
      if s in store.frames {
        return Error(ParentOwned);
      }
      var row, wf := access.session, access.wf;
      var idx := FindStep(wf, stepId);
      if idx < 0 {
        return Error(InvalidArgument);
      }
      var child := store.TopFrameFor(s);
      if stepId !in row.stepData && !(wf.steps[idx].call.Some? && child.Some?) {
        return Error(InvalidArgument);
      }
      ReviseWrites(s, wf, idx, child, now);
      reply := if wf.steps[idx].action.McpToolCall? then Crash else Revised(s, stepId);
    }

    /** The writes of an accepted revision. */
    method ReviseWrites(s: Sid, wf: Workflow, i: nat, child: Option<Sid>, now: int)
      requires i < |wf.steps| && s in store.sessions && child == TopFrame(store.Tables(), s)
      modifies store`sessions, store`frames
      ensures store.Tables() == ReviseTo(old(store.Tables()), s, wf, i, now)
    {
      hide DropData, Unlink, TopFrame, PickFrame;
      var step := wf.steps[i];
      var later := LaterSteps(wf, i);
      var _ := store.InvalidateSteps(s, later, now);
      if step.call.Some? {
        if child.Some? {
          Unlinked(store.Tables(), child.value, s, now);
          var _ := store.Delete(child.value);
          var _ := store.SetCalled(s, None, None, now);
        }
        assert Elements([step.id]) == {step.id};
        var _ := store.InvalidateSteps(s, [step.id], now);
      }
      var _ := store.UpdateSession(s, Some(step.id), None, now);
    }

    // --- enter_sub_workflow --------------------------------------------------------------------------------

    /** `enter_sub_workflow` */
    method Enter(p: Sid, stepId: StepId, now: int) returns (reply: Reply, evicted: set<Sid>)
      requires Valid()
      modifies store
      ensures (store.Tables(), reply) == EnterSubWorkflow(cfg, env, old(store.Tables()), p, stepId, evicted, now)
      ensures store.nextSid != old(store.nextSid) ==> Victims(old(store.Tables()), sessionCap, evicted)
      ensures store.nextSid == old(store.nextSid) ==> evicted == {}
      ensures Valid()
    {
      hide SoundFrames, WellFormedWorkflow, TopFrame, CallChild, Victims, ResolveRef;
      evicted := {};
      EnterSound(cfg, env, store.Tables(), p, stepId, {}, now);
      if stepId == "" {
        return Error(InvalidArgument), {};
      }
      var access := ResolveSession(p, now);
      if access.Denied? {
        return Error(access.code), {};
      }
      var row, wf := access.session, access.wf;
      if row.currentStep == COMPLETE {
        return Error(WorkflowComplete), {};
      }
      if row.escalation.Some? {
        return Error(SessionEscalated), {};
      }
      if row.currentStep != stepId {
        return Error(OutOfOrder), {};
      }
      var idx := FindStep(wf, stepId);
      if idx < 0 || wf.steps[idx].call.None? {
        return Error(InvalidArgument), {};
      }
      var pending := store.TopFrameFor(p);
      if pending.Some? {
        return Error(SubWorkflowPending), {};
      }
      var step := wf.steps[idx];
      var target := step.call.value;
      if target !in cfg.workflows {
        return Error(WorkflowNotLoaded), {};
      }
      if step.callContextFrom.Some? {
        var extracted := ResolveRef(env, step.callContextFrom.value, row.stepData, {});
        if !(extracted.Found? && extracted.value != Null) {
          return Error(InvalidArgument), {};
        }
      }
      var child;
      child, evicted := SpawnCalled(p, target, stepId, now);
      EnterSound(cfg, env, old(store.Tables()), p, stepId, evicted, now);
      FirstStep(cfg.workflows[target]);
      var first := cfg.workflows[target].steps[0];
      if p in evicted {
        reply := Error(SessionNotFound);
      } else {
        reply := if first.action.McpToolCall? then Crash else Entered(child, target, first.id);
      }
    }

    /** Creating the called child, counting the visit of its first step, and linking it. */
    method SpawnCalled(p: Sid, target: Name, stepId: StepId, now: int) returns (child: Sid, evicted: set<Sid>)
      requires Valid() && target in cfg.workflows
      modifies store
      ensures child == old(store.nextSid) && store.nextSid == child + 1
      ensures store.Tables() == CallChild(cfg, env, old(store.Tables()), evicted, target, p, stepId, now)
      ensures Victims(old(store.Tables()), sessionCap, evicted)
    {
      hide CreateChild, Victims, SoundFrames, PushFull;
      FirstStep(cfg.workflows[target]);
      var first := cfg.workflows[target].steps[0];
      var fp := Fingerprint(target);
      var created;
      created, evicted := store.CreateSession(sessionCap, target, first.id, Some(p), CallFrame, None, None, fp, now);
      assert created.Inserted? by {
        NoDepthCap(old(store.Tables()), evicted, p);
      }
      child := created.sid;
      var _ := store.IncrementVisit(child, first.id, now);
      var _ := store.SetCalled(p, Some(child), Some(stepId), now);
    }

    // --- push_flow, pop_flow, delete_session ------------------------------------------------------------------

    /** `push_flow` */
    method Push(s: Sid, name: Name, pausedAt: StepId, now: int) returns (reply: Reply, evicted: set<Sid>)
      requires Valid()
      modifies store
      ensures (store.Tables(), reply) == PushFlow(cfg, env, old(store.Tables()), s, name, pausedAt, evicted, now)
      ensures store.nextSid != old(store.nextSid) ==> Victims(old(store.Tables()), sessionCap, evicted)
      ensures Valid()
    {
      hide SoundFrames, WellFormedWorkflow, TopFrame, SpawnChild, PushFull, Victims, StackDepth, CountActive;
      evicted := {};
      PushSound(cfg, env, store.Tables(), s, name, pausedAt, {}, now);
      if name == "" || pausedAt == "" {
        return Error(InvalidArgument), {};
      }
      var access := ResolveSession(s, now);
      if access.Denied? {
        return Error(access.code), {};
      }
      var row := access.session;
      if row.currentStep == COMPLETE {
        return Error(WorkflowComplete), {};
      }
      if row.escalation.Some? {
        return Error(SessionEscalated), {};
      }
      if row.currentStep != pausedAt {
        return Error(OutOfOrder), {};
      }
      var top := store.TopFrameFor(s);
      if top.Some? {
        return Error(SubWorkflowPending), {};
      }
      if name !in cfg.workflows {
        return Error(WorkflowNotLoaded), {};
      }
      var root := if s in store.frames then store.frames[s].root else s;
      var depth := store.Depth(root);
      if depth >= MAX_STACK_DEPTH {
        return Error(StackFull), {};
      }
      var active := store.Active();
      if active >= MAX_ACTIVE {
        return Error(SessionCapExceeded), {};
      }
      reply, evicted := SpawnDigression(s, name, pausedAt, now);
      PushSound(cfg, env, old(store.Tables()), s, name, pausedAt, evicted, now);
    }

    /** Creating the digression under the atomic depth cap. */
    method SpawnDigression(s: Sid, name: Name, pausedAt: StepId, now: int) returns (reply: Reply, evicted: set<Sid>)
      requires Valid() && name in cfg.workflows
      modifies store
      ensures Victims(old(store.Tables()), sessionCap, evicted)
      ensures if PushFull(old(store.Tables()), evicted, s, Some(MAX_STACK_DEPTH))
              then store.Tables() == old(store.Tables()) && reply == Error(StackFull)
              else
                && store.Tables() == SpawnChild(cfg, env, old(store.Tables()), evicted, name, s, DigressionFrame,
                                                Some(pausedAt), Some(MAX_STACK_DEPTH), now)
                && var first := cfg.workflows[name].steps[0];
                   reply == if first.action.McpToolCall? then Crash else Pushed(old(store.nextSid), name, first.id)
    {
      hide CreateChild, Victims, SoundFrames, PushFull;
      FirstStep(cfg.workflows[name]);
      var first := cfg.workflows[name].steps[0];
      var fp := Fingerprint(name);
      var created;
      created, evicted := store.CreateSession(sessionCap, name, first.id, Some(s), DigressionFrame, Some(pausedAt),
                                              Some(MAX_STACK_DEPTH), fp, now);
      if created.RolledBack? {
        return Error(StackFull), evicted;
      }
      var _ := store.IncrementVisit(created.sid, first.id, now);
      reply := if first.action.McpToolCall? then Crash else Pushed(created.sid, name, first.id);
    }

    /** `pop_flow` */
    method Pop(s: Sid, now: int) returns (reply: Reply)
      requires Valid()
      modifies store`sessions, store`frames
      ensures (store.Tables(), reply) == PopFlow(cfg, old(store.Tables()), s, now)
      ensures Valid()
    {
      hide SoundFrames, WellFormedWorkflow, ParentOf, ResumeOuter;
      PopSound(cfg, store.Tables(), s, now);
      var access := ResolveSession(s, now);
      if access.Denied? {
        return Error(access.code);
      }
      if access.session.escalation.Some? {
        return Error(SessionEscalated);
      }
      if s !in store.frames {
        return Error(NoFrameToPop);
      }
      if store.frames[s].kind == CallFrame {
        return Error(FrameNotPoppable);
      }
      var outer := store.Parent(s);
      if outer.None? {
        return Crash;
      }
      reply := ResumeAfterDigression(s, now);
    }

    /** `delete_session` */
    method Delete(s: Sid) returns (reply: Reply)
      requires Valid()
      modifies store`sessions, store`frames
      ensures (store.Tables(), reply) == DeleteTool(old(store.Tables()), s)
      ensures Valid()
    {
      DeleteSound(store.Tables(), s);
      if s in store.frames {
        return Error(ParentOwned);
      }
      var found := store.Delete(s);
      reply := if found then Deleted(s) else Error(SessionNotFound);
    }
  }

  lemma FirstStep(wf: Workflow)
    requires WellFormedWorkflow(wf)
    ensures |wf.steps| > 0 && UniqueIds(wf) && ForwardMcp(wf)
  {
  }

  lemma Unlinked(db: Db, child: Sid, p: Sid, now: int)
    ensures Unlink(db, child, p, now) == ClearCalled(DeleteSession(db, child), p, now)
  {
  }

  lemma NoDepthCap(db: Db, victims: set<Sid>, p: Sid)
    ensures !PushFull(db, victims, p, None)
  {
  }

  method LaterSteps(wf: Workflow, i: nat) returns (ids: seq<StepId>)
    requires i < |wf.steps|
    ensures Elements(ids) == StepsAfter(wf, i)
  {
    ids := [];
    var k := i + 1;
    while k < |wf.steps|
      invariant i < k <= |wf.steps|
      invariant forall id :: id in ids <==> exists m :: i < m < k && wf.steps[m].id == id
    {
      ids := ids + [wf.steps[k].id];
      k := k + 1;
    }
  }
}
