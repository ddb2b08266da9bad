/** What the replies of the tools tell a client about the session it talks to. */
module ReplySemantics {
  import opened Options
  import opened Workflows
  import opened References
  import Stepping
  import opened InlineExecution
  import opened Tables
  import opened StackView
  import opened StackWrites
  import opened ToolSpecs
  import opened StackSafety
  import opened Soundness
  import opened SessionMoves
  import opened ToolMoves

  /** The refusals of a client that has lost track of the server. */
  predicate Desynced(reply: Reply) {
    reply == Error(OutOfOrder) || reply == Error(SubWorkflowPending) || reply == Error(CallStepNeedsEnter)
  }

  /** The session stands at this step of its workflow, whose call target the client is told. */
  ghost predicate StandsAt(cfg: Config, db: Db, x: Sid, step: StepId, target: Option<Name>) {
    && x in db.sessions && db.sessions[x].workflowType in cfg.workflows && db.sessions[x].currentStep == step
    && var wf := cfg.workflows[db.sessions[x].workflowType];
       FindStep(wf, step) >= 0 && target == CallTargetOf(wf, step)
  }

  /** What the reply to a submission for s, on tables that were a and now are b, tells. */
  ghost predicate Tells(cfg: Config, a: Db, b: Db, s: Sid, reply: Reply) {
    match reply
    case Advanced(x, step, target, propagated) =>
      && StandsAt(cfg, b, x, step, target)
      && (if propagated then ParentOf(a, s) == Some(x) && s !in b.sessions else x == s)
    case ValidationError(exhausted) =>
      !exhausted ==> s in a.sessions && s in b.sessions && b.sessions[s].currentStep == a.sessions[s].currentStep
    case Error(_) => !Desynced(reply)
    case Finished(x, propagated) =>
      && x in b.sessions && b.sessions[x].currentStep == COMPLETE
      && (if propagated then ParentOf(a, s) == Some(x) && s !in b.sessions else x == s && ParentOf(a, s) == None)
    case Crash => true
    case Resumed(_, _, _, _) => s in a.frames && a.frames[s].kind == DigressionFrame
    case ResumedComplete(_, _) => s in a.frames && a.frames[s].kind == DigressionFrame
    case _ => false
  }

  lemma MovementTells(cfg: Config, db: Db, x: Sid, wf: Workflow, m: Movement, now: int, propagated: bool)
    requires m.Moved? && x in db.sessions && db.sessions[x].workflowType in cfg.workflows
    requires wf == cfg.workflows[db.sessions[x].workflowType]
    ensures var reply := AdvanceReply(x, wf, m.at, propagated);
            match reply
            case Advanced(y, step, target, p) => y == x && p == propagated && StandsAt(cfg, WriteMovement(db, x, m, now), x, step, target)
            case Finished(y, p) => y == x && p == propagated && x in WriteMovement(db, x, m, now).sessions
                                   && WriteMovement(db, x, m, now).sessions[x].currentStep == COMPLETE
            case _ => reply == Error(InvalidArgument)
  {
    hide WriteMovement;
    MovementWrites(db, x, m, now);
  }

  lemma AdvanceParentTells(cfg: Config, env: Env, a: Db, db: Db, s: Sid, p: Sid, wf: Workflow, i: nat, data: StepData, now: int)
    requires UniqueIds(wf) && ForwardMcp(wf) && i < |wf.steps| && ParentOf(a, s) == Some(p) && s !in db.sessions
    requires p in db.sessions && db.sessions[p].workflowType in cfg.workflows && wf == cfg.workflows[db.sessions[p].workflowType]
    ensures var (b, reply) := AdvanceParent(env, db, p, wf, i, data, now); Tells(cfg, a, b, s, reply)
  {
    hide Move, WriteMovement, StandsAt, ParentOf, UniqueIds, ForwardMcp, AdvanceReply;
    if !(wf.steps[i].branches != [] && wf.steps[i].defaultBranch.None?) {
      var next := if wf.steps[i].branches != [] then wf.steps[i].defaultBranch.value else Stepping.NextInOrder(wf, i);
      var m := Move(env, wf, next, data, false);
      if m.Moved? {
        MovementTells(cfg, db, p, wf, m, now, true);
        MovementWrites(db, p, m, now);
      }
    }
  }

  lemma PropagateTells(cfg: Config, env: Env, a: Db, db: Db, child: Sid, p: Sid, childWf: Workflow, data: StepData, now: int)
    requires WellFormedConfig(cfg) && |childWf.steps| > 0 && ParentOf(a, child) == Some(p) && ParentOf(db, child) == Some(p)
    requires child != p
    ensures var (b, reply) := Propagate(cfg, env, db, child, p, childWf, data, now); Tells(cfg, a, b, child, reply)
  {
    hide AdvanceParent, ParentOf, StandsAt, Stale, BackwardRefs, TargetsExist, FieldRules, UniqueIds, ForwardMcp;
    var artifact := FinalArtifact(childWf, data);
    match HandoverOf(cfg, env, db, child, p, artifact, now)
    case Withheld(_, _) =>
    case Delivered(row, wf, i) =>
      var unlinked := Unlink(db, child, p, now);
      UnlinkRests(db, child, p, now);
      AdvanceParentTells(cfg, env, a, unlinked, child, p, wf, i, row.stepData[row.currentStep := artifact], now);
  }

  lemma ResumeOuterReply(cfg: Config, db: Db, child: Sid, outer: Sid, now: int)
    ensures var reply := ResumeOuter(cfg, db, child, outer, now).1;
            reply.Resumed? || reply.ResumedComplete? || reply.Crash? || (reply.Error? && !Desynced(reply))
  {
  }

  lemma AutoResumeTells(cfg: Config, env: Env, a: Db, db: Db, s: Sid, p: Sid, childWf: Workflow, data: StepData, now: int)
    requires WellFormedConfig(cfg) && |childWf.steps| > 0 && a.frames == db.frames && ParentOf(a, s) == Some(p) && s != p
    requires ParentOf(db, s) == Some(p)
    ensures var (b, reply) := AutoResume(cfg, env, db, s, p, childWf, data, now); Tells(cfg, a, b, s, reply)
  {
    hide Propagate, ResumeOuter, StandsAt, ParentOf, Desynced;
    if s in db.frames && db.frames[s].kind == DigressionFrame {
      ResumeOuterReply(cfg, db, s, p, now);
    } else {
      PropagateTells(cfg, env, a, db, s, p, childWf, data, now);
    }
  }

  lemma CommitTells(cfg: Config, env: Env, a: Db, db: Db, s: Sid, row: Session, i: nat, content: string, branch: string, now: int)
    requires WellFormedConfig(cfg) && Sound(db) && SameShape(a, db) && s in db.sessions
    requires row.workflowType in cfg.workflows && row.workflowType == db.sessions[s].workflowType
    requires i < |cfg.workflows[row.workflowType].steps|
    ensures var (b, reply) := Commit(cfg, env, db, s, row, cfg.workflows[row.workflowType], i, content, branch, now);
            Tells(cfg, a, b, s, reply)
  {
    hide Move, WriteMovement, AutoResume, StandsAt, Sound, AdvanceReply, BackwardRefs, TargetsExist, FieldRules,
         UniqueIds, ForwardMcp, ParentOf;
    var wf := cfg.workflows[row.workflowType];
    var data := row.stepData[wf.steps[i].id := content];
    var fired := FirstGuardrail(env, wf.guardrails, content, data, row, wf.steps[i].id);
    if !(fired.Some? && fired.value.action.Escalate?) {
      var requested := Requested(wf, i, fired, branch);
      if requested.Some? {
        var m := Move(env, wf, requested.value.0, data, requested.value.1);
        if m.Moved? {
          MovementSameShape(db, s, m, now);
          SameFramesParent(a, WriteMovement(db, s, m, now), s);
          if m.at != COMPLETE || ParentOf(a, s) == None {
            StaysTells(cfg, a, db, s, wf, m, now);
          }
          CompletesTells(cfg, env, a, db, s, wf, m, now);
        }
      }
    }
  }

  lemma SameFramesParent(a: Db, b: Db, s: Sid)
    requires a.frames == b.frames
    ensures ParentOf(a, s) == ParentOf(b, s)
  {
  }

  lemma StaysTells(cfg: Config, a: Db, db: Db, s: Sid, wf: Workflow, m: Movement, now: int)
    requires s in db.sessions && m.Moved? && db.sessions[s].workflowType in cfg.workflows
    requires wf == cfg.workflows[db.sessions[s].workflowType] && (m.at == COMPLETE ==> ParentOf(a, s) == None)
    ensures Tells(cfg, a, WriteMovement(db, s, m, now), s, AdvanceReply(s, wf, m.at, false))
  {
    hide WriteMovement, StandsAt, ParentOf;
    MovementTells(cfg, db, s, wf, m, now, false);
  }

  lemma CompletesTells(cfg: Config, env: Env, a: Db, db: Db, s: Sid, wf: Workflow, m: Movement, now: int)
    requires WellFormedConfig(cfg) && Sound(db) && SameShape(a, db) && m.Moved? && |wf.steps| > 0
    ensures var db1 := WriteMovement(db, s, m, now);
            ParentOf(db1, s).Some? ==>
              var (b, reply) := AutoResume(cfg, env, db1, s, ParentOf(db1, s).value, wf, m.data, now);
              Tells(cfg, a, b, s, reply)
  {
    hide WriteMovement, AutoResume, Tells, ParentOf, Sound;
    var db1 := WriteMovement(db, s, m, now);
    MovementSameShape(db, s, m, now);
    NeighboursUnique(db, s);
    SameFramesParent(a, db1, s);
    SameFramesParent(db, db1, s);
    if ParentOf(db1, s).Some? {
      AutoResumeTells(cfg, env, a, db1, s, ParentOf(db1, s).value, wf, m.data, now);
    }
  }

  /** A submission for the step at which the top session of a stack stands, when that is not a
      call-step: the reply never is one of the refusals of a client out of step, and an advance
      names the session now on top and the step it stands at. */
  lemma SubmitTells(cfg: Config, env: Env, db: Db, s: Sid, stepId: StepId, content: string, branch: string, now: int)
    requires WellFormedConfig(cfg) && Sound(db) && TopFrame(db, s) == None && StandsAt(cfg, db, s, stepId, None)
    ensures var (b, reply) := SubmitStep(cfg, env, db, s, stepId, content, branch, "", now); Tells(cfg, db, b, s, reply)
  {
    hide Commit, Sound, BackwardRefs, TargetsExist, FieldRules, UniqueIds, ForwardMcp, TopFrame, Stale, ParentOf;
    var row := db.sessions[s];
    var wf := cfg.workflows[row.workflowType];
    if Resolve(cfg, db, s, now).Ready? && SubmitRefusal(env, db, s, row, wf, stepId, content).None? {
      CommitTells(cfg, env, db, db, s, row, FindStep(wf, stepId), content, branch, now);
    }
  }

  /** Entering at the call-step at which the top session stands: a child framed above it, at the
      first step of the target, or a refusal that is not one of a client out of step. */
  lemma EnterTells(cfg: Config, env: Env, db: Db, v: View, p: Sid, stepId: StepId, target: Name, now: int)
    requires WellFormedConfig(cfg) && Good(db, v) && TopFrame(db, p) == None && StandsAt(cfg, db, p, stepId, Some(target))
    ensures var (b, reply) := EnterSubWorkflow(cfg, env, db, p, stepId, {}, now);
            && !Desynced(reply) && (reply.Entered? || reply.Error? || reply.Crash?)
            && (reply.Entered? ==>
                  && reply.session == db.nextSid && reply.workflowType == target && target in cfg.workflows
                  && RootOf(db, p) in v && Good(b, Raised(db, v, p))
                  && db.nextSid in b.sessions && b.sessions[db.nextSid].workflowType == target
                  && b.sessions[db.nextSid].currentStep == reply.step && reply.step == cfg.workflows[target].steps[0].id
                  && db.nextSid in b.frames && b.frames[db.nextSid].kind == CallFrame)
  {
    hide CallChild, Represents, Linked, Issued, BackwardRefs, TargetsExist, FieldRules, UniqueIds, ForwardMcp,
         TopFrame, Stale, ResolveRef;
    var row := db.sessions[p];
    if Resolve(cfg, db, p, now).Ready? && EnterRefusal(cfg, env, db, p, row, cfg.workflows[row.workflowType], stepId).None? {
      CallChildGood(cfg, env, db, v, target, p, stepId, now);
      CallChildRow(cfg, env, db, target, p, stepId, now);
    }
  }

  lemma CallChildRow(cfg: Config, env: Env, db: Db, target: Name, p: Sid, stepId: StepId, now: int)
    requires WellFormedConfig(cfg) && target in cfg.workflows
    ensures var b := CallChild(cfg, env, db, {}, target, p, stepId, now); var c := db.nextSid;
            && c in b.sessions && b.sessions[c].workflowType == target
            && b.sessions[c].currentStep == cfg.workflows[target].steps[0].id
            && c in b.frames && b.frames[c].kind == CallFrame
  {
    hide SpawnChild;
    var row := SpawnIsPush(cfg, env, db, target, p, CallFrame, None, None, now);
  }

  /** Starting a workflow: the new session stands where the reply says. */
  lemma StartTells(cfg: Config, env: Env, db: Db, name: Name, now: int)
    requires WellFormedConfig(cfg)
    ensures var (b, reply) := StartWorkflow(cfg, env, db, name, {}, now);
            && !Desynced(reply)
            && (reply.Started? ==>
                  && reply.session == db.nextSid && name in cfg.workflows && b.nextSid != db.nextSid
                  && StandsAt(cfg, b, db.nextSid, reply.step, CallTargetOf(cfg.workflows[name], reply.step))
                  && b.sessions[db.nextSid].workflowType == name)
            && (reply.Started? || reply.Finished? || reply.Error? || reply.Crash?)
            && (reply.Finished? ==> reply.session == db.nextSid && db.nextSid in b.sessions
                                    && b.sessions[db.nextSid].currentStep == COMPLETE)
  {
    hide AutoRun, NewRoot, RunFront, BackwardRefs, TargetsExist, FieldRules, UniqueIds, ForwardMcp;
    if name in cfg.workflows && CountActive(db) < MAX_ACTIVE {
      var wf := cfg.workflows[name];
      var first := wf.steps[0].id;
      NewRootWrites(cfg, env, db, name, {}, now);
      FrontTells(NewRoot(cfg, env, db, name, {}, now), db.nextSid, wf, first, AutoRun(env, wf, first, map[], []), now);
      NewRootIssues(cfg, env, db, name, now);
    }
  }

  lemma NewRootIssues(cfg: Config, env: Env, db: Db, name: Name, now: int)
    requires WellFormedConfig(cfg) && name in cfg.workflows
    ensures NewRoot(cfg, env, db, name, {}, now).nextSid == db.nextSid + 1
  {
  }

  lemma FrontTells(db: Db, s: Sid, wf: Workflow, first: StepId, r: AutoResult, now: int)
    requires s in db.sessions && db.sessions[s].currentStep == first
    ensures var (b, reply) := RunFront(db, s, wf, first, r, now);
            && (reply.Started? || reply.Finished? || reply == Error(SkippedPredecessor) || reply.Crash?)
            && b.nextSid == db.nextSid && s in b.sessions && b.sessions[s].workflowType == db.sessions[s].workflowType
            && (reply.Started? ==> reply.session == s && b.sessions[s].currentStep == reply.step && FindStep(wf, reply.step) >= 0)
            && (reply.Finished? ==> reply.session == s && b.sessions[s].currentStep == COMPLETE)
  {
    var db1 := IncVisits(db, s, r.executed, now);
    IncVisitsRest(db, s, r.executed, now);
    RunFrontSameShape(db, s, wf, first, r, now);
  }
}
