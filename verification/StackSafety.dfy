/** Every tool call keeps the stacks: what each of them does to the view, and exactly when the
    unguarded ones break it. */
module StackSafety {
  import opened Options
  import opened Workflows
  import opened References
  import opened Stepping
  import opened InlineExecution
  import opened Tables
  import opened StackView
  import opened StackWrites
  import opened ToolSpecs

  lemma SameShapeTransitive(a: Db, b: Db, c: Db)
    requires SameShape(a, b) && SameShape(b, c)
    ensures SameShape(a, c)
  {
  }

  lemma IncVisitSameShape(db: Db, s: Sid, step: StepId, now: int)
    ensures SameShape(db, IncVisit(db, s, step, now))
  {
  }

  lemma SetStepSameShape(db: Db, s: Sid, step: StepId, now: int)
    ensures SameShape(db, SetStep(db, s, step, now))
  {
  }

  lemma SetDataSameShape(db: Db, s: Sid, data: StepData, now: int)
    ensures SameShape(db, SetData(db, s, data, now))
  {
  }

  lemma SetEscalationSameShape(db: Db, s: Sid, reason: string, now: int)
    ensures SameShape(db, SetEscalation(db, s, reason, now))
  {
  }

  lemma {:induction false} IncVisitsSameShape(db: Db, s: Sid, steps: seq<StepId>, now: int)
    ensures SameShape(db, IncVisits(db, s, steps, now))
  {
    if steps != [] {
      var db1 := IncVisits(db, s, steps[..|steps| - 1], now);
      IncVisitsSameShape(db, s, steps[..|steps| - 1], now);
      IncVisitSameShape(db1, s, steps[|steps| - 1], now);
      SameShapeTransitive(db, db1, IncVisits(db, s, steps, now));
    }
  }

  lemma SetStepAndDataSameShape(db: Db, s: Sid, step: StepId, data: StepData, now: int)
    ensures SameShape(db, SetStepAndData(db, s, step, data, now))
  {
    var db1 := SetStep(db, s, step, now);
    SetStepSameShape(db, s, step, now);
    SetDataSameShape(db1, s, data, now);
    SameShapeTransitive(db, db1, SetData(db1, s, data, now));
  }

  lemma MovementSameShape(db: Db, s: Sid, m: Movement, now: int)
    ensures SameShape(db, WriteMovement(db, s, m, now))
  {
    if !m.Blocked? {
      var db1 := IncVisits(db, s, m.executed, now);
      IncVisitsSameShape(db, s, m.executed, now);
      var db2 := if m.Moved? && m.at != COMPLETE then IncVisit(db1, s, m.at, now) else db1;
      IncVisitSameShape(db1, s, m.at, now);
      SameShapeTransitive(db, db1, db2);
      SetStepAndDataSameShape(db2, s, m.at, m.data, now);
      SameShapeTransitive(db, db2, SetStepAndData(db2, s, m.at, m.data, now));
    }
  }

  lemma FailUpwardsSameShape(db: Db, s: Sid, reply: Reply, now: int)
    ensures SameShape(db, FailUpwards(db, s, reply, now).0)
  {
    var p := ParentOf(db, s);
    if p.Some? {
      SetEscalationSameShape(db, p.value, "called_workflow_failed", now);
    }
  }

  lemma ResolveSameShape(cfg: Config, db: Db, s: Sid, now: int)
    ensures var a := Resolve(cfg, db, s, now); a.Refused? ==> SameShape(db, a.db)
  {
    SetStepSameShape(db, s, WORKFLOW_CHANGED, now);
  }

  lemma WithheldSameShape(cfg: Config, env: Env, db: Db, child: Sid, p: Sid, artifact: string, now: int)
    ensures var h := HandoverOf(cfg, env, db, child, p, artifact, now); h.Withheld? ==> SameShape(db, h.db)
  {
    ResolveSameShape(cfg, db, p, now);
    SetEscalationSameShape(db, p, "sub_workflow_state_drift", now);
    FailUpwardsSameShape(db, child, ValidationError(false), now);
  }

  /** The stacks are as before, or the session was on top of its stack and has left it. */
  ghost predicate KeptOrPopped(db: Db, v: View, b: Db, s: Sid)
    requires Good(db, v)
  {
    || Good(b, v)
    || (s in db.frames && TopFrame(db, s) == None && db.frames[s].root in v && v[db.frames[s].root] != []
        && v[db.frames[s].root][|v[db.frames[s].root]| - 1] == s
        && Good(b, Popped(v, db.frames[s].root)))
  }

  lemma ResumeOuterKeeps(cfg: Config, db: Db, v: View, child: Sid, outer: Sid, now: int)
    requires Good(db, v) && child in db.frames && db.frames[child].kind == DigressionFrame && TopFrame(db, child) == None
    ensures KeptOrPopped(db, v, ResumeOuter(cfg, db, child, outer, now).0, child)
  {
    var b := ResumeOuter(cfg, db, child, outer, now).0;
    if Resolve(cfg, db, outer, now).Ready? {
      assert b == DeleteSession(db, child);
      DigressionPoppedGood(db, v, child);
      TopRemoved(db, v, child);
    } else {
      ResolveSameShape(cfg, db, outer, now);
      SameShapeGood(db, b, v);
    }
  }

  lemma PropagateKeeps(cfg: Config, env: Env, db: Db, v: View, child: Sid, p: Sid, childWf: Workflow, data: StepData, now: int)
    requires Good(db, v) && WellFormedConfig(cfg) && |childWf.steps| > 0
    requires child in db.frames && TopFrame(db, child) == None && ParentOf(db, child) == Some(p)
    ensures KeptOrPopped(db, v, Propagate(cfg, env, db, child, p, childWf, data, now).0, child)
  {
    var b := Propagate(cfg, env, db, child, p, childWf, data, now).0;
    var artifact := FinalArtifact(childWf, data);
    match HandoverOf(cfg, env, db, child, p, artifact, now)
    case Withheld(db1, _) =>
      WithheldSameShape(cfg, env, db, child, p, artifact, now);
      SameShapeGood(db, b, v);
    case Delivered(row, wf, i) =>
      var unlinked := Unlink(db, child, p, now);
      ChildPoppedGood(db, v, child, p, now);
      TopRemoved(db, v, child);
      AdvanceParentSameShape(env, unlinked, p, wf, i, row.stepData[row.currentStep := artifact], now);
      SameShapeGood(unlinked, b, Popped(v, db.frames[child].root));
  }

  lemma AdvanceParentSameShape(env: Env, db: Db, p: Sid, wf: Workflow, i: nat, data: StepData, now: int)
    requires i < |wf.steps| && UniqueIds(wf) && ForwardMcp(wf)
    ensures SameShape(db, AdvanceParent(env, db, p, wf, i, data, now).0)
  {
    var step := wf.steps[i];
    if !(step.branches != [] && step.defaultBranch.None?) {
      var next := if step.branches != [] then step.defaultBranch.value else NextInOrder(wf, i);
      MovementSameShape(db, p, Move(env, wf, next, data, false), now);
    }
  }

  lemma AutoResumeKeeps(cfg: Config, env: Env, db: Db, v: View, child: Sid, p: Sid, childWf: Workflow, data: StepData, now: int)
    requires Good(db, v) && WellFormedConfig(cfg) && |childWf.steps| > 0
    requires TopFrame(db, child) == None && ParentOf(db, child) == Some(p)
    ensures KeptOrPopped(db, v, AutoResume(cfg, env, db, child, p, childWf, data, now).0, child)
  {
    if db.frames[child].kind == DigressionFrame {
      ResumeOuterKeeps(cfg, db, v, child, p, now);
    } else {
      PropagateKeeps(cfg, env, db, v, child, p, childWf, data, now);
    }
  }

  lemma KeptFromSameShape(db: Db, db1: Db, v: View, b: Db, s: Sid)
    requires Good(db, v) && SameShape(db, db1)
    requires Good(db1, v) && KeptOrPopped(db1, v, b, s)
    ensures KeptOrPopped(db, v, b, s)
  {
  }

  lemma CommitKeeps(cfg: Config, env: Env, db: Db, v: View, s: Sid, row: Session, wf: Workflow, i: nat,
                    content: string, branch: string, now: int)
    requires Good(db, v) && WellFormedConfig(cfg) && WellFormedWorkflow(wf) && i < |wf.steps|
    requires TopFrame(db, s) == None
    ensures KeptOrPopped(db, v, Commit(cfg, env, db, s, row, wf, i, content, branch, now).0, s)
  {
    var b := Commit(cfg, env, db, s, row, wf, i, content, branch, now).0;
    var step := wf.steps[i];
    var data := row.stepData[step.id := content];
    var fired := FirstGuardrail(env, wf.guardrails, content, data, row, step.id);
    if fired.Some? && fired.value.action.Escalate? {
      var db1 := SetEscalation(db, s, fired.value.id, now);
      var db2 := SetData(db1, s, data, now);
      SetEscalationSameShape(db, s, fired.value.id, now);
      SetDataSameShape(db1, s, data, now);
      FailUpwardsSameShape(db2, s, Error(SessionEscalated), now);
      SameShapeTransitive(db, db1, db2);
      SameShapeTransitive(db, db2, b);
      SameShapeGood(db, b, v);
    } else {
      var requested := Requested(wf, i, fired, branch);
      if requested.Some? {
        CommitMovementKeeps(cfg, env, db, v, s, wf, requested.value.0, requested.value.1, data, now);
      }
    }
  }

  lemma CommitMovementKeeps(cfg: Config, env: Env, db: Db, v: View, s: Sid, wf: Workflow, next: StepId, forced: bool,
                            data: StepData, now: int)
    requires Good(db, v) && WellFormedConfig(cfg) && WellFormedWorkflow(wf) && TopFrame(db, s) == None
    ensures var m := Move(env, wf, next, data, forced);
            var db1 := WriteMovement(db, s, m, now);
            && Good(db1, v)
            && (!m.Moved? ==> Good(FailUpwards(db1, s, Error(SkippedPredecessor), now).0, v))
            && (m.Moved? && ParentOf(db1, s).Some? ==>
                  KeptOrPopped(db, v, AutoResume(cfg, env, db1, s, ParentOf(db1, s).value, wf, m.data, now).0, s))
  {
    var m := Move(env, wf, next, data, forced);
    var db1 := WriteMovement(db, s, m, now);
    MovementSameShape(db, s, m, now);
    SameShapeGood(db, db1, v);
    if !m.Moved? {
      FailUpwardsSameShape(db1, s, Error(SkippedPredecessor), now);
      SameShapeGood(db1, FailUpwards(db1, s, Error(SkippedPredecessor), now).0, v);
    } else if ParentOf(db1, s).Some? {
      var p := ParentOf(db1, s).value;
      AutoResumeKeeps(cfg, env, db1, v, s, p, wf, m.data, now);
      KeptFromSameShape(db, db1, v, AutoResume(cfg, env, db1, s, p, wf, m.data, now).0, s);
    }
  }

  lemma SubmitArtifactKeeps(cfg: Config, env: Env, db: Db, v: View, s: Sid, row: Session, wf: Workflow, i: nat,
                            content: string, branch: string, artifact: string, now: int)
    requires Good(db, v) && WellFormedConfig(cfg) && WellFormedWorkflow(wf) && i < |wf.steps|
    requires TopFrame(db, s) == None
    ensures KeptOrPopped(db, v, SubmitArtifact(cfg, env, db, s, row, wf, i, content, branch, artifact, now).0, s)
  {
    hide Commit, Represents, Linked, Issued, UniqueIds, BackwardRefs, TargetsExist, FieldRules, ForwardMcp;
    var step := wf.steps[i];
    var def := FindArtifact(step.artifacts, artifact);
    if artifact != "" && def.Some? && env.conformsArtifact(def.value.schema, content) {
      if def.value.checkpoint {
        var db1 := StoreArtifact(db, s, step.id, artifact, content, now);
        StoreArtifactSameShape(db, s, step.id, artifact, content, now);
        SameShapeGood(db, db1, v);
        CommitKeeps(cfg, env, db1, v, s, row, wf, i, content, branch, now);
        KeptFromSameShape(db, db1, v, Commit(cfg, env, db1, s, row, wf, i, content, branch, now).0, s);
      } else {
        CommitKeeps(cfg, env, db, v, s, row, wf, i, content, branch, now);
      }
    }
  }

  lemma StoreArtifactSameShape(db: Db, s: Sid, step: StepId, artifact: string, content: string, now: int)
    ensures SameShape(db, StoreArtifact(db, s, step, artifact, content, now))
  {
  }

  lemma SubmitContentKeeps(cfg: Config, env: Env, db: Db, v: View, s: Sid, row: Session, wf: Workflow, i: nat,
                           content: string, branch: string, now: int)
    requires Good(db, v) && WellFormedConfig(cfg) && WellFormedWorkflow(wf) && i < |wf.steps|
    requires TopFrame(db, s) == None
    ensures KeptOrPopped(db, v, SubmitContent(cfg, env, db, s, row, wf, i, content, branch, now).0, s)
  {
    var step := wf.steps[i];
    var b := SubmitContent(cfg, env, db, s, row, wf, i, content, branch, now).0;
    if step.outputSchema.Some? && !env.conforms(step.outputSchema.value, content) {
      var db1 := IncRetry(db, s, step.id, now);
      IncRetrySameShape(db, s, step.id, now);
      FailUpwardsSameShape(db1, s, ValidationError(true), now);
      SameShapeTransitive(db, db1, FailUpwards(db1, s, ValidationError(true), now).0);
      SameShapeGood(db, b, v);
    } else {
      CommitKeeps(cfg, env, db, v, s, row, wf, i, content, branch, now);
    }
  }

  lemma IncRetrySameShape(db: Db, s: Sid, step: StepId, now: int)
    ensures SameShape(db, IncRetry(db, s, step, now))
  {
  }

  /** submit_step: the stacks stay, or the submitted session, on top of its stack, leaves it. */
  lemma SubmitKeeps(cfg: Config, env: Env, db: Db, v: View, s: Sid, stepId: StepId, content: string, branch: string,
                    artifact: string, now: int)
    requires Good(db, v) && WellFormedConfig(cfg)
    ensures KeptOrPopped(db, v, SubmitStep(cfg, env, db, s, stepId, content, branch, artifact, now).0, s)
  {
    hide SubmitArtifact, SubmitContent, Represents, Linked, Issued, UniqueIds, BackwardRefs, TargetsExist,
         FieldRules, ForwardMcp;
    var b := SubmitStep(cfg, env, db, s, stepId, content, branch, artifact, now).0;
    match Resolve(cfg, db, s, now)
    case Refused(db1, _) =>
      ResolveSameShape(cfg, db, s, now);
      SameShapeGood(db, b, v);
    case Ready(row, wf) =>
      if SubmitRefusal(env, db, s, row, wf, stepId, content).None? {
        var i := FindStep(wf, stepId);
        if wf.steps[i].artifacts != [] {
          SubmitArtifactKeeps(cfg, env, db, v, s, row, wf, i, content, branch, artifact, now);
        } else {
          SubmitContentKeeps(cfg, env, db, v, s, row, wf, i, content, branch, now);
        }
      }
  }

  // --- start_workflow, enter_sub_workflow, push_flow -----------------------------------------

  lemma NothingRemoved(db: Db)
    ensures Remove(db, {}) == db
  {
    assert db.sessions - {} == db.sessions && db.frames - {} == db.frames;
  }

  lemma RunFrontSameShape(db: Db, s: Sid, wf: Workflow, first: StepId, r: AutoResult, now: int)
    ensures SameShape(db, RunFront(db, s, wf, first, r, now).0)
  {
    var db1 := IncVisits(db, s, r.executed, now);
    IncVisitsSameShape(db, s, r.executed, now);
    var db2 := SetStepAndData(db1, s, r.at, r.data, now);
    SetStepAndDataSameShape(db1, s, r.at, r.data, now);
    SameShapeTransitive(db, db1, db2);
    IncVisitSameShape(db2, s, r.at, now);
    SameShapeTransitive(db, db2, IncVisit(db2, s, r.at, now));
  }

  lemma NewRootGood(cfg: Config, env: Env, db: Db, v: View, name: Name, now: int)
    requires Good(db, v) && WellFormedConfig(cfg) && name in cfg.workflows
    ensures Good(NewRoot(cfg, env, db, name, {}, now), v[db.nextSid := []])
  {
    var first, fp := cfg.workflows[name].steps[0].id, FingerprintFor(cfg, env, name);
    var created := CreateRoot(db, {}, name, first, fp, now);
    NothingRemoved(db);
    RootAddedGood(db, v, created, NewSession(name, first, None, fp, now));
    IncVisitSameShape(created, db.nextSid, first, now);
    SameShapeGood(created, NewRoot(cfg, env, db, name, {}, now), v[db.nextSid := []]);
  }

  /** start_workflow below the session cap: nothing, or one new root with an empty stack. */
  lemma StartAddsRoot(cfg: Config, env: Env, db: Db, v: View, name: Name, now: int)
    requires Good(db, v) && WellFormedConfig(cfg)
    ensures var b := StartWorkflow(cfg, env, db, name, {}, now).0; b == db || Good(b, v[db.nextSid := []])
  {
    if name in cfg.workflows && CountActive(db) < MAX_ACTIVE {
      var wf := cfg.workflows[name];
      var first := wf.steps[0].id;
      var started, r := NewRoot(cfg, env, db, name, {}, now), AutoRun(env, wf, first, map[], []);
      NewRootGood(cfg, env, db, v, name, now);
      RunFrontSameShape(started, db.nextSid, wf, first, r, now);
      SameShapeGood(started, RunFront(started, db.nextSid, wf, first, r, now).0, v[db.nextSid := []]);
    }
  }

  ghost function Raised(db: Db, v: View, p: Sid): View
    requires RootOf(db, p) in v
  {
    v[RootOf(db, p) := v[RootOf(db, p)] + [db.nextSid]]
  }

  lemma CreatedIsPush(db: Db, target: Name, step: StepId, p: Sid, kind: FrameKind, callStep: Option<StepId>,
                      maxDepth: Option<nat>, fp: string, now: int)
    requires !PushFull(db, {}, p, maxDepth)
    ensures IsPush(db, CreateChild(db, {}, target, step, p, kind, callStep, maxDepth, fp, now),
                   p, NewSession(target, step, Some(p), fp, now), kind, callStep)
  {
    NothingRemoved(db);
  }

  lemma VisitedPush(db: Db, b: Db, p: Sid, row: Session, kind: FrameKind, callStep: Option<StepId>, step: StepId, now: int)
    requires IsPush(db, b, p, row, kind, callStep) && row.visits == map[]
    ensures IsPush(db, IncVisit(b, db.nextSid, step, now), p, row.(visits := map[step := 1], updatedAt := now), kind, callStep)
  {
    var row' := row.(visits := map[step := 1], updatedAt := now);
    assert b.sessions[db.nextSid := row'] == db.sessions[db.nextSid := row'];
  }

  /** A spawned child is a push of its row. */
  lemma SpawnIsPush(cfg: Config, env: Env, db: Db, target: Name, p: Sid, kind: FrameKind,
                    callStep: Option<StepId>, maxDepth: Option<nat>, now: int) returns (row: Session)
    requires WellFormedConfig(cfg) && target in cfg.workflows && !PushFull(db, {}, p, maxDepth)
    ensures IsPush(db, SpawnChild(cfg, env, db, {}, target, p, kind, callStep, maxDepth, now), p, row, kind, callStep)
    ensures row.called == None && row.parent == Some(p) && row.workflowType == target
            && row.currentStep == cfg.workflows[target].steps[0].id && row.stepData == map[]
            && row.fingerprint == FingerprintFor(cfg, env, target) && row.escalation == None
  {
    hide IsPush, PushFull, CreateChild, IncVisit;
    var first := cfg.workflows[target].steps[0].id;
    var fp := FingerprintFor(cfg, env, target);
    row := NewSession(target, first, Some(p), fp, now);
    CreatedIsPush(db, target, first, p, kind, callStep, maxDepth, fp, now);
    VisitedPush(db, CreateChild(db, {}, target, first, p, kind, callStep, maxDepth, fp, now), p, row, kind, callStep, first, now);
    row := row.(visits := map[first := 1], updatedAt := now);
  }

  /** enter_sub_workflow below the session cap: a refusal changes no stack; otherwise the child
      is framed directly above its caller, which had nothing above it. */
  lemma EnterPushes(cfg: Config, env: Env, db: Db, v: View, p: Sid, stepId: StepId, now: int)
    requires Good(db, v) && WellFormedConfig(cfg)
    ensures var b := EnterSubWorkflow(cfg, env, db, p, stepId, {}, now).0;
            Good(b, v) || (p in db.sessions && TopFrame(db, p) == None && RootOf(db, p) in v && Good(b, Raised(db, v, p)))
  {
    hide CallChild, Represents, Linked, Issued, UniqueIds, BackwardRefs, TargetsExist, FieldRules, ForwardMcp, ResolveRef, TopFrame;
    match Resolve(cfg, db, p, now)
    case Refused(db1, _) =>
      ResolveSameShape(cfg, db, p, now);
      SameShapeGood(db, db1, v);
    case Ready(row, wf) =>
      if EnterRefusal(cfg, env, db, p, row, wf, stepId).None? {
        CallChildGood(cfg, env, db, v, wf.steps[FindStep(wf, stepId)].call.value, p, stepId, now);
      }
  }

  lemma CallChildGood(cfg: Config, env: Env, db: Db, v: View, target: Name, p: Sid, stepId: StepId, now: int)
    requires Good(db, v) && WellFormedConfig(cfg) && target in cfg.workflows && p in db.sessions && TopFrame(db, p) == None
    ensures RootOf(db, p) in v && Good(CallChild(cfg, env, db, {}, target, p, stepId, now), Raised(db, v, p))
  {
    var child := SpawnIsPush(cfg, env, db, target, p, CallFrame, None, None, now);
    CallPushedGood(db, v, SpawnChild(cfg, env, db, {}, target, p, CallFrame, None, None, now), p, child, None, stepId, now);
  }

  lemma PushChildGood(cfg: Config, env: Env, db: Db, v: View, target: Name, p: Sid, pausedAt: StepId, now: int)
    requires Good(db, v) && WellFormedConfig(cfg) && target in cfg.workflows && p in db.sessions && TopFrame(db, p) == None
    requires !PushFull(db, {}, p, Some(MAX_STACK_DEPTH))
    ensures RootOf(db, p) in v
    ensures Good(SpawnChild(cfg, env, db, {}, target, p, DigressionFrame, Some(pausedAt), Some(MAX_STACK_DEPTH), now), Raised(db, v, p))
  {
    var child := SpawnIsPush(cfg, env, db, target, p, DigressionFrame, Some(pausedAt), Some(MAX_STACK_DEPTH), now);
    DigressionPushedGood(db, v, SpawnChild(cfg, env, db, {}, target, p, DigressionFrame, Some(pausedAt), Some(MAX_STACK_DEPTH), now),
                         p, child, Some(pausedAt));
  }

  /** push_flow below the session cap, likewise with a digression frame. */
  lemma PushPushes(cfg: Config, env: Env, db: Db, v: View, s: Sid, name: Name, pausedAt: StepId, now: int)
    requires Good(db, v) && WellFormedConfig(cfg)
    ensures var b := PushFlow(cfg, env, db, s, name, pausedAt, {}, now).0;
            Good(b, v) || (s in db.sessions && TopFrame(db, s) == None && RootOf(db, s) in v && Good(b, Raised(db, v, s)))
  {
    hide SpawnChild, Represents, Linked, Issued, CountActive, StackDepth, UniqueIds, BackwardRefs, TargetsExist,
         FieldRules, ForwardMcp;
    match Resolve(cfg, db, s, now)
    case Refused(db1, _) =>
      ResolveSameShape(cfg, db, s, now);
      SameShapeGood(db, db1, v);
    case Ready(row, wf) =>
      if PushRefusal(cfg, db, s, row, name, pausedAt).None? && !PushFull(db, {}, s, Some(MAX_STACK_DEPTH)) {
        PushChildGood(cfg, env, db, v, name, s, pausedAt, now);
      }
  }

  // --- The unguarded tools: exactly when they keep the stacks --------------------------------

  lemma SameShapeSymmetric(a: Db, b: Db)
    requires SameShape(a, b)
    ensures SameShape(b, a)
  {
  }

  lemma SameShapeWellFormedIff(a: Db, b: Db)
    requires SameShape(a, b)
    ensures WellFormed(a) <==> WellFormed(b)
  {
    if WellFormed(a) {
      SameShapeRepresents(a, b, ViewOf(a));
    }
    if WellFormed(b) {
      SameShapeSymmetric(a, b);
      SameShapeRepresents(b, a, ViewOf(b));
    }
  }

  /** pop_flow of the top frame takes exactly that frame off, or refuses. */
  lemma PopKeeps(cfg: Config, db: Db, v: View, s: Sid, now: int)
    requires Good(db, v)
    requires s in db.frames && db.frames[s].kind == DigressionFrame ==> TopFrame(db, s) == None
    ensures KeptOrPopped(db, v, PopFlow(cfg, db, s, now).0, s)
  {
    var b := PopFlow(cfg, db, s, now).0;
    match Resolve(cfg, db, s, now)
    case Refused(db1, _) =>
      ResolveSameShape(cfg, db, s, now);
      SameShapeGood(db, b, v);
    case Ready(row, wf) =>
      if s in db.frames && db.frames[s].kind == DigressionFrame && ParentOf(db, s).Some? {
        ResumeOuterKeeps(cfg, db, v, s, ParentOf(db, s).value, now);
      }
  }

  /** The guards behind which pop_flow takes its session off: the session resolves, is not
      escalated and is a digression, and the session below it resolves too. */
  ghost predicate PopAccepted(cfg: Config, db: Db, s: Sid, now: int) {
    && Resolve(cfg, db, s, now).Ready? && Resolve(cfg, db, s, now).session.escalation.None?
    && s in db.frames && db.frames[s].kind == DigressionFrame
    && ParentOf(db, s).Some? && Resolve(cfg, db, ParentOf(db, s).value, now).Ready?
  }

  /** An accepted pop removes its session and nothing else; any other pop removes nothing. */
  lemma PopRemovesIff(cfg: Config, db: Db, s: Sid, now: int)
    ensures var b := PopFlow(cfg, db, s, now).0;
            if PopAccepted(cfg, db, s, now) then s in db.sessions && b == Remove(db, {s}) else SameShape(db, b)
  {
    ResolveSameShape(cfg, db, s, now);
    var outer := ParentOf(db, s);
    if outer.Some? {
      ResolveSameShape(cfg, db, outer.value, now);
    }
    assert SameShape(db, db);
  }

  /** pop_flow never checks that the popped session is on top: it keeps the stacks well formed
      if and only if it is refused or nothing is framed above the popped session. */
  lemma PopKeepsWellFormedIff(cfg: Config, db: Db, s: Sid, now: int)
    requires WellFormed(db)
    ensures WellFormed(PopFlow(cfg, db, s, now).0) <==> !PopAccepted(cfg, db, s, now) || TopFrame(db, s) == None
  {
    hide PopFlow, PopAccepted;
    PopRemovesIff(cfg, db, s, now);
    if PopAccepted(cfg, db, s, now) {
      SingleRemovalIff(db, s);
    } else {
      SameShapeWellFormedIff(db, PopFlow(cfg, db, s, now).0);
    }
  }

  /** delete_session accepts a root with frames above it: the stacks stay well formed if and
      only if there were none. */
  lemma DeleteKeepsWellFormedIff(db: Db, s: Sid)
    requires WellFormed(db)
    ensures var (b, reply) := DeleteTool(db, s);
            WellFormed(b) <==> s in db.frames || s !in db.sessions || TopFrame(db, s) == None
  {
    if s !in db.frames && s in db.sessions {
      SingleRemovalIff(db, s);
    }
  }

  lemma DeleteKeeps(db: Db, v: View, s: Sid)
    requires Good(db, v)
    requires s in db.sessions && s !in db.frames ==> TopFrame(db, s) == None
    ensures var b := DeleteTool(db, s).0; b == db || Good(b, v - {s})
  {
    if s !in db.frames && s in db.sessions {
      RootRemovedGood(db, v, s);
    }
  }

  // --- revise_step ---------------------------------------------------------------------------

  lemma DropDataSameShape(db: Db, s: Sid, steps: set<StepId>, now: int)
    ensures SameShape(db, DropData(db, s, steps, now))
  {
    if s in db.sessions {
      SetDataSameShape(db, s, db.sessions[s].stepData - steps, now);
    }
  }

  /** The writes of an accepted revision around the removal of the child. */
  lemma ReviseShape(db: Db, s: Sid, wf: Workflow, i: nat, now: int)
    requires i < |wf.steps|
    ensures var db1 := DropData(db, s, StepsAfter(wf, i), now);
            && SameShape(db, db1)
            && SameShape(if wf.steps[i].call.Some? && TopFrame(db, s).Some? then Unlink(db1, TopFrame(db, s).value, s, now) else db1,
                         ReviseTo(db, s, wf, i, now))
  {
    var step := wf.steps[i];
    var db1 := DropData(db, s, StepsAfter(wf, i), now);
    DropDataSameShape(db, s, StepsAfter(wf, i), now);
    var db2 := if step.call.Some? && TopFrame(db, s).Some? then Unlink(db1, TopFrame(db, s).value, s, now) else db1;
    var db3 := if step.call.Some? then DropData(db2, s, {step.id}, now) else db2;
    DropDataSameShape(db2, s, {step.id}, now);
    SetStepSameShape(db3, s, step.id, now);
    SameShapeTransitive(db2, db3, SetStep(db3, s, step.id, now));
  }

  lemma ReviseToKeeps(db: Db, v: View, s: Sid, wf: Workflow, i: nat, now: int)
    requires Good(db, v) && i < |wf.steps| && s in v && |v[s]| <= 1
    ensures var b := ReviseTo(db, s, wf, i, now);
            Good(b, v) || (v[s] != [] && Good(b, Popped(v, s)))
  {
    hide Represents, Linked, Issued, DeleteSession, ClearCalled;
    var b := ReviseTo(db, s, wf, i, now);
    var db1 := DropData(db, s, StepsAfter(wf, i), now);
    ReviseShape(db, s, wf, i, now);
    SameShapeGood(db, db1, v);
    if wf.steps[i].call.Some? && TopFrame(db, s).Some? {
      var c := TopFrame(db, s).value;
      OnlyChild(db1, v, s, c);
      ChildPoppedGood(db1, v, c, s, now);
      SameShapeGood(Unlink(db1, c, s, now), b, Popped(v, s));
    } else {
      SameShapeGood(db1, b, v);
    }
  }

  /** revise_step with at most one frame above the session: the stacks stay, or the one child
      of a revised call-step leaves. */
  lemma ReviseKeeps(cfg: Config, db: Db, v: View, s: Sid, stepId: StepId, now: int)
    requires Good(db, v)
    requires s in v ==> |v[s]| <= 1
    ensures var b := ReviseStep(cfg, db, s, stepId, now).0;
            Good(b, v) || (s in v && v[s] != [] && Good(b, Popped(v, s)))
  {
    match Resolve(cfg, db, s, now)
    case Refused(db1, _) =>
      ResolveSameShape(cfg, db, s, now);
      SameShapeGood(db, db1, v);
    case Ready(row, wf) =>
      if ReviseRefusal(db, s, row, wf, stepId).None? {
        ReviseToKeeps(db, v, s, wf, FindStep(wf, stepId), now);
      }
  }

  lemma OnlyChild(db: Db, v: View, s: Sid, c: Sid)
    requires Represents(db, v) && s in v && |v[s]| <= 1 && TopFrame(db, s) == Some(c)
    ensures c in db.frames && db.frames[c].root == s && TopFrame(db, c) == None && ParentOf(db, c) == Some(s)
  {
    Located(db, v, s);
    AccessorsAgree(db, v, s, 0);
    LocatedAt(db, v, s, 1);
    AccessorsAgree(db, v, s, 1);
  }

  lemma UnlinkWellFormedIff(db: Db, c: Sid, s: Sid, now: int)
    requires WellFormed(db) && s in db.sessions && TopFrame(db, s) == Some(c)
    ensures WellFormed(Unlink(db, c, s, now)) <==> TopFrame(db, c) == None
  {
    var v := ViewOf(db);
    Located(db, v, s);
    AccessorsAgree(db, v, RootOf(db, s), DepthOf(db, s));
    LocatedAt(db, v, RootOf(db, s), DepthOf(db, s) + 1);
    var removed := Remove(db, {c});
    var unlinked := Unlink(db, c, s, now);
    forall f | f in removed.frames ensures !IsTopFrame(removed, s, f) {
      if IsTopFrame(removed, s, f) {
        FrameAtIs(db, v, RootOf(db, s), DepthOf(db, s) + 1, f);
      }
    }
    assert unlinked.frames == removed.frames;
    SingleRemovalIff(db, c);
    if WellFormed(removed) {
      SameFramesRepresents(removed, unlinked, ViewOf(removed));
    }
    if WellFormed(unlinked) {
      SameFramesRepresents(unlinked, removed, ViewOf(unlinked));
    }
  }

  /** A revision takes the session above along exactly when it goes back to a call-step. */
  lemma ReviseToChild(db: Db, s: Sid, wf: Workflow, i: nat, now: int)
    requires i < |wf.steps| && s in db.sessions && TopFrame(db, s).Some? && TopFrame(db, s).value in db.sessions
    ensures TopFrame(db, s).value in ReviseTo(db, s, wf, i, now).sessions <==> wf.steps[i].call.None?
  {
    hide ClearCalled;
    var db1, c := DropData(db, s, StepsAfter(wf, i), now), TopFrame(db, s).value;
    ReviseShape(db, s, wf, i, now);
    ClearedSessions(DeleteSession(db1, c), s, now);
  }

  lemma ClearedSessions(db: Db, s: Sid, now: int)
    ensures ClearCalled(db, s, now).sessions.Keys == db.sessions.Keys
  {
  }

  lemma ReviseToWellFormedIff(db: Db, s: Sid, wf: Workflow, i: nat, now: int)
    requires WellFormed(db) && i < |wf.steps| && s in db.sessions
    ensures var b := ReviseTo(db, s, wf, i, now); var t := TopFrame(db, s);
            && (t.Some? ==> (t.value in b.sessions <==> wf.steps[i].call.None?))
            && (WellFormed(b) <==> t.None? || wf.steps[i].call.None? || TopFrame(db, t.value) == None)
  {
    hide WellFormed, Represents, Linked, Issued, ReviseTo, DropData, Unlink;
    var b := ReviseTo(db, s, wf, i, now);
    var db1 := DropData(db, s, StepsAfter(wf, i), now);
    TopIsSession(db, ViewOf(db), s);
    ReviseShape(db, s, wf, i, now);
    SameShapeWellFormedIff(db, db1);
    if TopFrame(db, s).Some? {
      ReviseToChild(db, s, wf, i, now);
    }
    if wf.steps[i].call.Some? && TopFrame(db, s).Some? {
      var c := TopFrame(db, s).value;
      UnlinkWellFormedIff(db1, c, s, now);
      SameShapeWellFormedIff(Unlink(db1, c, s, now), b);
    } else {
      SameShapeWellFormedIff(db1, b);
    }
  }

  /** The guards behind which revise_step goes back to a call-step. */
  ghost predicate RevisesCall(cfg: Config, db: Db, s: Sid, stepId: StepId, now: int) {
    stepId != "" &&
    match Resolve(cfg, db, s, now)
    case Refused(_, _) => false
    case Ready(row, wf) =>
      ReviseRefusal(db, s, row, wf, stepId).None? && wf.steps[FindStep(wf, stepId)].call.Some?
  }

  /** revise_step on a call-step removes only the frame directly above: the stacks stay well
      formed if and only if it is refused, revises no call-step, finds no frame above, or finds
      one with nothing above it. */
  lemma ReviseKeepsWellFormedIff(cfg: Config, db: Db, s: Sid, stepId: StepId, now: int)
    requires WellFormed(db)
    ensures var t := TopFrame(db, s);
            WellFormed(ReviseStep(cfg, db, s, stepId, now).0) <==>
              !RevisesCall(cfg, db, s, stepId, now) || t.None? || TopFrame(db, t.value) == None
    ensures var b := ReviseStep(cfg, db, s, stepId, now).0; var t := TopFrame(db, s);
            t.Some? ==> (t.value in b.sessions <==> !RevisesCall(cfg, db, s, stepId, now))
  {
    hide ReviseTo, WellFormed;
    TopIsSession(db, ViewOf(db), s);
    match Resolve(cfg, db, s, now)
    case Refused(db1, _) =>
      ResolveSameShape(cfg, db, s, now);
      SameShapeWellFormedIff(db, db1);
    case Ready(row, wf) =>
      if ReviseRefusal(db, s, row, wf, stepId).None? {
        ReviseToWellFormedIff(db, s, wf, FindStep(wf, stepId), now);
      }
  }

  lemma TopIsSession(db: Db, v: View, s: Sid)
    requires Represents(db, v)
    ensures TopFrame(db, s).Some? ==> TopFrame(db, s).value in db.sessions
  {
  }

  // --- Whole runs ------------------------------------------------------------------------------

  /** A tool call together with the live maps, the surroundings and the clock it meets. */
  datatype Call =
    | Start(name: Name)
    | Submit(s: Sid, stepId: StepId, content: string, branch: string, artifact: string)
    | Revise(s: Sid, stepId: StepId)
    | Enter(s: Sid, stepId: StepId)
    | Push(s: Sid, name: Name, stepId: StepId)
    | Pop(s: Sid)
    | Delete(s: Sid)

  /** A required string argument is empty. */
  predicate EmptyArgument(c: Call) {
    match c
    case Start(name) => name == ""
    case Submit(_, stepId, _, _, _) => stepId == ""
    case Revise(_, stepId) => stepId == ""
    case Enter(_, stepId) => stepId == ""
    case Push(_, name, stepId) => name == "" || stepId == ""
    case _ => false
  }

  datatype Event = Event(cfg: Config, env: Env, now: int, call: Call)

  /** The effect of one call when creating a session evicts `victims`. */
  ghost function ApplyEvicting(db: Db, e: Event, victims: set<Sid>): (Db, Reply)
    requires WellFormedConfig(e.cfg)
  {
    match e.call
    case Start(name) => StartWorkflow(e.cfg, e.env, db, name, victims, e.now)
    case Submit(s, stepId, content, branch, artifact) => SubmitStep(e.cfg, e.env, db, s, stepId, content, branch, artifact, e.now)
    case Revise(s, stepId) => ReviseStep(e.cfg, db, s, stepId, e.now)
    case Enter(s, stepId) => EnterSubWorkflow(e.cfg, e.env, db, s, stepId, victims, e.now)
    case Push(s, name, stepId) => PushFlow(e.cfg, e.env, db, s, name, stepId, victims, e.now)
    case Pop(s) => PopFlow(e.cfg, db, s, e.now)
    case Delete(s) => DeleteTool(db, s)
  }

  /** The effect of one call below the session cap, where nothing is evicted. */
  ghost function Apply(db: Db, e: Event): (Db, Reply)
    requires WellFormedConfig(e.cfg)
  {
    ApplyEvicting(db, e, {})
  }

  /** What a careful client checks before the three unguarded calls: pop the top frame, revise
      with at most one frame above, delete with none above. */
  ghost predicate Careful(db: Db, c: Call) {
    match c
    case Pop(s) => s in db.frames && db.frames[s].kind == DigressionFrame ==> TopFrame(db, s) == None
    case Revise(s, _) => s in db.sessions && s !in db.frames ==> StackDepth(db, s) <= 1
    case Delete(s) => s in db.sessions && s !in db.frames ==> TopFrame(db, s) == None
    case _ => true
  }

  /** One call changes the view by at most one step at the end of one stack. */
  ghost predicate ViewStep(v: View, w: View, newest: Sid) {
    || w == v
    || (newest !in v && w == v[newest := []])
    || (exists r :: r in v && w == v[r := v[r] + [newest]])
    || (exists r :: r in v && v[r] != [] && w == v[r := v[r][..|v[r]| - 1]])
    || (exists r :: r in v && v[r] == [] && w == v - {r})
  }

  lemma CallKeepsGood(db: Db, v: View, e: Event) returns (w: View)
    requires Good(db, v) && WellFormedConfig(e.cfg) && Careful(db, e.call)
    ensures Good(Apply(db, e).0, w) && ViewStep(v, w, db.nextSid)
  {
    var b := Apply(db, e).0;
    w := v;
    match e.call {
      case Start(name) =>
        StartAddsRoot(e.cfg, e.env, db, v, name, e.now);
        w := if b == db then v else v[db.nextSid := []];
        assert db.nextSid !in v;
      case Submit(s, stepId, content, branch, artifact) =>
        SubmitKeeps(e.cfg, e.env, db, v, s, stepId, content, branch, artifact, e.now);
        w := if Good(b, v) then v else Popped(v, db.frames[s].root);
      case Revise(s, stepId) =>
        if s in v {
          StackDepthAgrees(db, v, s);
        }
        ReviseKeeps(e.cfg, db, v, s, stepId, e.now);
        w := if Good(b, v) then v else Popped(v, s);
      case Enter(s, stepId) =>
        EnterPushes(e.cfg, e.env, db, v, s, stepId, e.now);
        w := if Good(b, v) then v else Raised(db, v, s);
      case Push(s, name, stepId) =>
        PushPushes(e.cfg, e.env, db, v, s, name, stepId, e.now);
        w := if Good(b, v) then v else Raised(db, v, s);
      case Pop(s) =>
        PopKeeps(e.cfg, db, v, s, e.now);
        w := if Good(b, v) then v else Popped(v, db.frames[s].root);
      case Delete(s) =>
        DeleteKeeps(db, v, s);
        if b != db {
          w := v - {s};
          Located(db, v, s);
          AccessorsAgree(db, v, s, 0);
        }
    }
  }

  ghost function After(db: Db, events: seq<Event>): Db
    requires forall e :: e in events ==> WellFormedConfig(e.cfg)
    decreases |events|
  {
    if events == [] then db else After(Apply(db, events[0]).0, events[1..])
  }

  ghost predicate CarefulRun(db: Db, events: seq<Event>)
    requires forall e :: e in events ==> WellFormedConfig(e.cfg)
    decreases |events|
  {
    events == [] || (Careful(db, events[0].call) && CarefulRun(Apply(db, events[0]).0, events[1..]))
  }

  /** Over every careful run of tool calls below the session cap the tables stay one stack per
      root with faithful legacy columns. */
  lemma {:induction false} RunsKeepStacks(db: Db, v: View, events: seq<Event>) returns (w: View)
    requires forall e :: e in events ==> WellFormedConfig(e.cfg)
    requires Good(db, v) && CarefulRun(db, events)
    ensures Good(After(db, events), w)
    decreases |events|
  {
    w := v;
    if events != [] {
      w := CallKeepsGood(db, v, events[0]);
      w := RunsKeepStacks(Apply(db, events[0]).0, w, events[1..]);
    }
  }
}
