/** When a submission hands its session over to the one below it, decided on the tables before
    the call, and what the session below it then becomes. */
module Handovers {
  import opened Options
  import opened Workflows
  import opened References
  import Stepping
  import opened Tables
  import opened ToolSpecs
  import opened StackSafety
  import opened SessionMoves
  import opened ToolMoves

  /** The content passes the checks of its step and lets the session go on. */
  predicate Accepts(env: Env, step: Step, content: string, artifact: string) {
    if step.artifacts != [] then
      var def := FindArtifact(step.artifacts, artifact);
      artifact != "" && def.Some? && env.conformsArtifact(def.value.schema, content) && artifact == step.outputFrom
    else step.outputSchema.Some? ==> env.conforms(step.outputSchema.value, content)
  }

  /** The movement accepted content asks of its own session; none when a guardrail escalates or the
      branch is not one of the step's. */
  function OwnMove(env: Env, row: Session, wf: Workflow, i: nat, content: string, branch: string): Option<Movement>
    requires i < |wf.steps| && UniqueIds(wf) && ForwardMcp(wf)
  {
    var data := row.stepData[wf.steps[i].id := content];
    var fired := FirstGuardrail(env, wf.guardrails, content, data, row, wf.steps[i].id);
    if fired.Some? && fired.value.action.Escalate? then None
    else
      match Requested(wf, i, fired, branch)
      case None => None
      case Some((next, forced)) => Some(Move(env, wf, next, data, forced))
  }

  /** A finished session: its workflow and the step data it finished with. */
  datatype Finish = Finish(wf: Workflow, data: StepData)

  function FinishedBy(wf: Workflow, m: Option<Movement>): Option<Finish> {
    if m.Some? && m.value.Moved? && m.value.at == COMPLETE then Some(Finish(wf, m.value.data)) else None
  }

  /** How a submission finishes its session, if every guard lets it. */
  ghost function FinishOf(cfg: Config, env: Env, db: Db, c: Sid, stepId: StepId, content: string, branch: string,
                          artifact: string, now: int): (f: Option<Finish>)
    requires WellFormedConfig(cfg)
    ensures f.Some? ==> WellFormedWorkflow(f.value.wf)
  {
    if stepId == "" then None
    else
      match Resolve(cfg, db, c, now)
      case Refused(_, _) => None
      case Ready(row, wf) =>
        if SubmitRefusal(env, db, c, row, wf, stepId, content).Some? then None
        else if !Accepts(env, wf.steps[FindStep(wf, stepId)], content, artifact) then None
        else FinishedBy(wf, OwnMove(env, row, wf, FindStep(wf, stepId), content, branch))
  }

  /** Where a call-step leads. */
  function AfterCall(wf: Workflow, i: nat): StepId
    requires i < |wf.steps|
  {
    if wf.steps[i].branches != [] && wf.steps[i].defaultBranch.Some? then wf.steps[i].defaultBranch.value
    else Stepping.NextInOrder(wf, i)
  }

  /** The session p takes the artifact of a finished called child: it resolves, it stands at a
      call-step, and the schema of that step, if it has one, accepts the artifact. */
  ghost predicate Takes(cfg: Config, env: Env, db: Db, p: Sid, artifact: string, now: int) {
    match Resolve(cfg, db, p, now)
    case Refused(_, _) => false
    case Ready(row, wf) =>
      var i := FindStep(wf, row.currentStep);
      i >= 0 && wf.steps[i].call.Some? && (wf.steps[i].outputSchema.Some? ==> env.conforms(wf.steps[i].outputSchema.value, artifact))
  }

  /** The hand-over goes through exactly then. */
  lemma DeliveredIff(cfg: Config, env: Env, db: Db, c: Sid, p: Sid, artifact: string, now: int)
    ensures HandoverOf(cfg, env, db, c, p, artifact, now).Delivered? <==> Takes(cfg, env, db, p, artifact, now)
  {
  }

  /** The movement of the session p below a finished called child c; none when c is a digression
      or p does not take its artifact. */
  ghost function ParentMove(cfg: Config, env: Env, db: Db, c: Sid, p: Sid, f: Option<Finish>, now: int): Option<Movement>
    requires WellFormedConfig(cfg) && (f.Some? ==> WellFormedWorkflow(f.value.wf))
  {
    if f.None? || c !in db.frames || db.frames[c].kind == DigressionFrame then None
    else
      var artifact := FinalArtifact(f.value.wf, f.value.data);
      if !Takes(cfg, env, db, p, artifact, now) then None
      else
        var row, wf := db.sessions[p], cfg.workflows[db.sessions[p].workflowType];
        Some(Move(env, wf, AfterCall(wf, FindStep(wf, row.currentStep)), row.stepData[row.currentStep := artifact], false))
  }

  /** Position and data stay, or the session gets the terminal mark. */
  ghost predicate Still(cfg: Config, a: Session, b: Session) {
    Rests(a, b) || Marked(cfg, a, b)
  }

  /** A session whose row carries exactly this movement; a blocked one leaves it alone. */
  ghost predicate Carries(a: Session, b: Session, m: Movement) {
    if m.Blocked? then Rests(a, b) else SameIdentity(a, b) && b.currentStep == m.at && b.stepData == m.data
  }

  /** What becomes of the session p below c: its movement m, if the child was handed over. */
  ghost predicate Outcome(cfg: Config, a: Db, b: Db, c: Sid, p: Sid, m: Option<Movement>, reply: Reply) {
    match m
    case None =>
      && !reply.Finished? && (p in b.sessions ==> p in a.sessions && Still(cfg, a.sessions[p], b.sessions[p]))
      && (c in a.sessions && c in a.frames && a.frames[c].kind == CallFrame ==> c in b.sessions)
    case Some(m) =>
      && c !in b.sessions && p in a.sessions && p in b.sessions && Carries(a.sessions[p], b.sessions[p], m)
      && a.sessions[p].workflowType in cfg.workflows
      && reply == if m.Moved? then AdvanceReply(p, cfg.workflows[a.sessions[p].workflowType], m.at, true)
                  else Error(SkippedPredecessor)
  }

  // --- Each write on the way -----------------------------------------------------------------------

  /** The decision reads nothing of p but what a resting row keeps. */
  lemma ParentMoveStays(cfg: Config, env: Env, a: Db, b: Db, c: Sid, p: Sid, f: Option<Finish>, now: int)
    requires WellFormedConfig(cfg) && (f.Some? ==> WellFormedWorkflow(f.value.wf))
    requires a.frames == b.frames && p in a.sessions && p in b.sessions && Rests(a.sessions[p], b.sessions[p])
    ensures ParentMove(cfg, env, a, c, p, f, now) == ParentMove(cfg, env, b, c, p, f, now)
  {
    hide Move, FinalArtifact, UniqueIds, BackwardRefs, TargetsExist, FieldRules, ForwardMcp;
  }

  lemma OutcomeAfterRest(cfg: Config, a: Db, a': Db, b: Db, c: Sid, p: Sid, m: Option<Movement>, reply: Reply)
    requires p in a.sessions && p in a'.sessions && Rests(a.sessions[p], a'.sessions[p]) && Outcome(cfg, a', b, c, p, m, reply)
    requires a'.frames == a.frames && (c in a.sessions ==> c in a'.sessions)
    ensures Outcome(cfg, a, b, c, p, m, reply)
  {
  }

  lemma AdvanceCarries(env: Env, db: Db, p: Sid, wf: Workflow, i: nat, data: StepData, now: int)
    requires i < |wf.steps| && WellFormedWorkflow(wf) && wf.steps[i].call.Some? && p in db.sessions
    ensures var m := Move(env, wf, AfterCall(wf, i), data, false);
            var (b, reply) := AdvanceParent(env, db, p, wf, i, data, now);
            && b.sessions.Keys == db.sessions.Keys && Carries(db.sessions[p], b.sessions[p], m)
            && reply == if m.Moved? then AdvanceReply(p, wf, m.at, true) else Error(SkippedPredecessor)
  {
    hide Move, WriteMovement, UniqueIds, BackwardRefs, TargetsExist, ForwardMcp;
    assert wf.steps[i] in wf.steps;
    MovementWrites(db, p, Move(env, wf, AfterCall(wf, i), data, false), now);
  }

  lemma PropagateOutcome(cfg: Config, env: Env, db: Db, c: Sid, p: Sid, f: Finish, now: int)
    requires WellFormedConfig(cfg) && WellFormedWorkflow(f.wf) && c != p
    requires c in db.frames && db.frames[c].kind == CallFrame && c in db.sessions
    ensures var (b, reply) := Propagate(cfg, env, db, c, p, f.wf, f.data, now);
            Outcome(cfg, db, b, c, p, ParentMove(cfg, env, db, c, p, Some(f), now), reply)
  {
    hide Move, AdvanceParent, FinalArtifact, Carries, Marked, UniqueIds, BackwardRefs, TargetsExist, FieldRules, ForwardMcp, Stale;
    var artifact := FinalArtifact(f.wf, f.data);
    DeliveredIff(cfg, env, db, c, p, artifact, now);
    match HandoverOf(cfg, env, db, c, p, artifact, now)
    case Withheld(b, _) =>
      WithheldMarks(cfg, env, db, c, p, artifact, now);
      WithheldSameShape(cfg, env, db, c, p, artifact, now);
    case Delivered(row, wf, i) =>
      UnlinkRests(db, c, p, now);
      var unlinked := Unlink(db, c, p, now);
      AdvanceCarries(env, unlinked, p, wf, i, row.stepData[row.currentStep := artifact], now);
      CarriesAfterRest(row, unlinked.sessions[p],
                       AdvanceParent(env, unlinked, p, wf, i, row.stepData[row.currentStep := artifact], now).0.sessions[p],
                       Move(env, wf, AfterCall(wf, i), row.stepData[row.currentStep := artifact], false));
  }

  lemma CarriesAfterRest(a: Session, a': Session, b: Session, m: Movement)
    requires Rests(a, a') && Carries(a', b, m)
    ensures Carries(a, b, m)
  {
  }

  lemma WithheldMarks(cfg: Config, env: Env, db: Db, c: Sid, p: Sid, artifact: string, now: int)
    requires WellFormedConfig(cfg)
    ensures var h := HandoverOf(cfg, env, db, c, p, artifact, now);
            h.Withheld? ==> AllMarked(cfg, db, h.db) && !h.reply.Finished?
  {
    hide AllMarked, AllRest, UniqueIds, BackwardRefs, TargetsExist, FieldRules, ForwardMcp;
    ResolveMarks(cfg, db, p, now);
    var h := HandoverOf(cfg, env, db, c, p, artifact, now);
    if Resolve(cfg, db, p, now).Ready? && h.Withheld? {
      WithheldRests(cfg, env, db, c, p, artifact, now);
      RestsAreMarked(cfg, db, h.db);
    }
  }

  lemma AutoResumeOutcome(cfg: Config, env: Env, db: Db, c: Sid, p: Sid, f: Finish, now: int)
    requires WellFormedConfig(cfg) && WellFormedWorkflow(f.wf) && c != p && c in db.frames && c in db.sessions
    ensures var (b, reply) := AutoResume(cfg, env, db, c, p, f.wf, f.data, now);
            Outcome(cfg, db, b, c, p, ParentMove(cfg, env, db, c, p, Some(f), now), reply)
  {
    hide ResumeOuter, Propagate, HandoverOf, Move, FinalArtifact, Marked, Carries, WellFormedWorkflow;
    if db.frames[c].kind == DigressionFrame {
      ResumeOuterMarks(cfg, db, c, p, now);
      ResumedIsNotFinished(cfg, db, c, p, now);
    } else {
      PropagateOutcome(cfg, env, db, c, p, f, now);
    }
  }

  lemma ResumedIsNotFinished(cfg: Config, db: Db, c: Sid, p: Sid, now: int)
    ensures !ResumeOuter(cfg, db, c, p, now).1.Finished?
  {
  }

  /** A row that rests, and a reply that is not a completion. */
  lemma RestingOutcome(cfg: Config, a: Db, b: Db, c: Sid, p: Sid, reply: Reply)
    requires Others(a, b, c) && c != p && !reply.Finished? && (c in a.sessions ==> c in b.sessions)
    ensures Outcome(cfg, a, b, c, p, None, reply)
  {
  }

  lemma FailUpwardsOutcome(cfg: Config, a: Db, b: Db, c: Sid, p: Sid, code: Reply, now: int)
    requires Others(a, b, c) && c != p && !code.Finished? && (c in a.sessions ==> c in b.sessions)
    ensures var (d, reply) := FailUpwards(b, c, code, now); Outcome(cfg, a, d, c, p, None, reply)
  {
    FailUpwardsRests(b, c, code, now);
    var d := FailUpwards(b, c, code, now).0;
    assert Others(a, d, c);
  }

  lemma CommitOutcome(cfg: Config, env: Env, db: Db, c: Sid, p: Sid, row: Session, wf: Workflow, i: nat, content: string, branch: string, now: int)
    requires WellFormedConfig(cfg) && WellFormedWorkflow(wf) && i < |wf.steps| && c in db.sessions && p in db.sessions
    requires ParentOf(db, c) == Some(p) && c != p
    ensures var (b, reply) := Commit(cfg, env, db, c, row, wf, i, content, branch, now);
            var f := FinishedBy(wf, OwnMove(env, row, wf, i, content, branch));
            Outcome(cfg, db, b, c, p, ParentMove(cfg, env, db, c, p, f, now), reply)
  {
    hide Move, WriteMovement, AutoResume, FailUpwards, ParentMove, Outcome, Others, SetEscalation, SetData, ParentOf, SameShape;
    hide UniqueIds, BackwardRefs, TargetsExist, FieldRules, ForwardMcp;
    var data := row.stepData[wf.steps[i].id := content];
    var fired := FirstGuardrail(env, wf.guardrails, content, data, row, wf.steps[i].id);
    if fired.Some? && fired.value.action.Escalate? {
      EscalatedWrites(db, c, fired.value.id, data, now);
      FailUpwardsOutcome(cfg, db, SetData(SetEscalation(db, c, fired.value.id, now), c, data, now), c, p, Error(SessionEscalated), now);
      NoFinishNoMove(cfg, env, db, c, p, now);
    } else {
      match Requested(wf, i, fired, branch)
      case None =>
        NothingElse(db, c);
        RestingOutcome(cfg, db, db, c, p, Error(InvalidArgument));
        NoFinishNoMove(cfg, env, db, c, p, now);
      case Some((next, forced)) =>
        MoveOutcome(cfg, env, db, c, p, wf, Move(env, wf, next, data, forced), now);
    }
  }

  lemma NothingElse(db: Db, c: Sid)
    ensures Others(db, db, c)
  {
  }

  lemma NoFinishNoMove(cfg: Config, env: Env, db: Db, c: Sid, p: Sid, now: int)
    requires WellFormedConfig(cfg)
    ensures ParentMove(cfg, env, db, c, p, None, now) == None
  {
  }

  lemma MoveOutcome(cfg: Config, env: Env, db: Db, c: Sid, p: Sid, wf: Workflow, m: Movement, now: int)
    requires WellFormedConfig(cfg) && WellFormedWorkflow(wf) && c in db.sessions && p in db.sessions
    requires ParentOf(db, c) == Some(p) && c != p
    ensures var db1 := WriteMovement(db, c, m, now);
            var (b, reply) := if !m.Moved? then FailUpwards(db1, c, Error(SkippedPredecessor), now)
                              else if m.at == COMPLETE && ParentOf(db1, c).Some?
                                then AutoResume(cfg, env, db1, c, ParentOf(db1, c).value, wf, m.data, now)
                              else (db1, AdvanceReply(c, wf, m.at, false));
            Outcome(cfg, db, b, c, p, ParentMove(cfg, env, db, c, p, FinishedBy(wf, Some(m)), now), reply)
  {
    hide WriteMovement, AutoResume, FailUpwards, ParentMove, Outcome;
    hide UniqueIds, BackwardRefs, TargetsExist, FieldRules, ForwardMcp;
    var db1 := WriteMovement(db, c, m, now);
    MovementWrites(db, c, m, now);
    MovementSameShape(db, c, m, now);
    assert ParentOf(db1, c) == Some(p) && Rests(db.sessions[p], db1.sessions[p]);
    if m.Moved? && m.at == COMPLETE {
      var f := Finish(wf, m.data);
      AutoResumeOutcome(cfg, env, db1, c, p, f, now);
      ParentMoveStays(cfg, env, db, db1, c, p, Some(f), now);
      var (b, reply) := AutoResume(cfg, env, db1, c, p, wf, m.data, now);
      OutcomeAfterRest(cfg, db, db1, b, c, p, ParentMove(cfg, env, db, c, p, Some(f), now), reply);
    } else {
      NoFinishNoMove(cfg, env, db, c, p, now);
      if m.Moved? {
        RestingOutcome(cfg, db, db1, c, p, AdvanceReply(c, wf, m.at, false));
      } else {
        FailUpwardsOutcome(cfg, db, db1, c, p, Error(SkippedPredecessor), now);
      }
    }
  }

  lemma ArtifactOutcome(cfg: Config, env: Env, db: Db, c: Sid, p: Sid, row: Session, wf: Workflow, i: nat, content: string, branch: string,
                        artifact: string, now: int)
    requires WellFormedConfig(cfg) && WellFormedWorkflow(wf) && i < |wf.steps| && c in db.sessions && p in db.sessions
    requires ParentOf(db, c) == Some(p) && c != p && wf.steps[i].artifacts != []
    ensures var (b, reply) := SubmitArtifact(cfg, env, db, c, row, wf, i, content, branch, artifact, now);
            var f := if Accepts(env, wf.steps[i], content, artifact) then FinishedBy(wf, OwnMove(env, row, wf, i, content, branch)) else None;
            Outcome(cfg, db, b, c, p, ParentMove(cfg, env, db, c, p, f, now), reply)
  {
    hide Commit, StoreArtifact, ParentMove, Outcome, OwnMove, FinishedBy, ParentOf, Others;
    hide UniqueIds, BackwardRefs, TargetsExist, FieldRules, ForwardMcp;
    var step := wf.steps[i];
    NoFinishNoMove(cfg, env, db, c, p, now);
    var (b, reply) := SubmitArtifact(cfg, env, db, c, row, wf, i, content, branch, artifact, now);
    var stored := StoreArtifact(db, c, step.id, artifact, content, now);
    StoreArtifactRests(db, c, step.id, artifact, content, now);
    StoreArtifactSameShape(db, c, step.id, artifact, content, now);
    StoredParent(db, stored, c, p);
    if Accepts(env, step, content, artifact) {
      CommitOutcome(cfg, env, db, c, p, row, wf, i, content, branch, now);
      CommitOutcome(cfg, env, stored, c, p, row, wf, i, content, branch, now);
      var f := FinishedBy(wf, OwnMove(env, row, wf, i, content, branch));
      FinishedWellFormed(wf, OwnMove(env, row, wf, i, content, branch));
      ParentMoveStays(cfg, env, db, stored, c, p, f, now);
      var (d, answer) := Commit(cfg, env, stored, c, row, wf, i, content, branch, now);
      OutcomeAfterRest(cfg, db, stored, d, c, p, ParentMove(cfg, env, db, c, p, f, now), answer);
    } else {
      NothingElse(db, c);
      RestIsOthers(db, stored, c);
      RestingOutcome(cfg, db, b, c, p, reply);
    }
  }

  lemma FinishedWellFormed(wf: Workflow, m: Option<Movement>)
    requires WellFormedWorkflow(wf)
    ensures FinishedBy(wf, m).Some? ==> WellFormedWorkflow(FinishedBy(wf, m).value.wf)
  {
  }

  lemma StoredParent(a: Db, b: Db, c: Sid, p: Sid)
    requires SameShape(a, b)
    ensures ParentOf(b, c) == ParentOf(a, c) && a.frames == b.frames
  {
  }

  lemma RestIsOthers(a: Db, b: Db, c: Sid)
    requires AllRest(a, b)
    ensures Others(a, b, c)
  {
  }

  lemma ContentOutcome(cfg: Config, env: Env, db: Db, c: Sid, p: Sid, row: Session, wf: Workflow, i: nat, content: string, branch: string, now: int)
    requires WellFormedConfig(cfg) && WellFormedWorkflow(wf) && i < |wf.steps| && c in db.sessions && p in db.sessions
    requires ParentOf(db, c) == Some(p) && c != p && wf.steps[i].artifacts == []
    ensures var (b, reply) := SubmitContent(cfg, env, db, c, row, wf, i, content, branch, now);
            var f := if Accepts(env, wf.steps[i], content, "") then FinishedBy(wf, OwnMove(env, row, wf, i, content, branch)) else None;
            Outcome(cfg, db, b, c, p, ParentMove(cfg, env, db, c, p, f, now), reply)
  {
    hide Commit, IncRetry, FailUpwards, ParentMove, Outcome, OwnMove, FinishedBy, ParentOf, Others;
    hide UniqueIds, BackwardRefs, TargetsExist, FieldRules, ForwardMcp;
    var step := wf.steps[i];
    if Accepts(env, step, content, "") {
      CommitOutcome(cfg, env, db, c, p, row, wf, i, content, branch, now);
    } else {
      NoFinishNoMove(cfg, env, db, c, p, now);
      var retried := IncRetry(db, c, step.id, now);
      IncRetryRests(db, c, step.id, now);
      RestIsOthers(db, retried, c);
      FailUpwardsOutcome(cfg, db, retried, c, p, ValidationError(true), now);
      RestingOutcome(cfg, db, retried, c, p, ValidationError(false));
    }
  }

  /** A submission to c moves the session p below it by exactly the hand-over's movement. */
  lemma SubmitOutcome(cfg: Config, env: Env, db: Db, c: Sid, p: Sid, stepId: StepId, content: string, branch: string, artifact: string, now: int)
    requires WellFormedConfig(cfg) && ParentOf(db, c) == Some(p) && c != p && p in db.sessions
    ensures var (b, reply) := SubmitStep(cfg, env, db, c, stepId, content, branch, artifact, now);
            var f := FinishOf(cfg, env, db, c, stepId, content, branch, artifact, now);
            Outcome(cfg, db, b, c, p, ParentMove(cfg, env, db, c, p, f, now), reply)
  {
    hide SubmitArtifact, SubmitContent, ParentMove, OwnMove, FinishedBy, TopFrame, Stale, ParentOf, Marked;
    hide UniqueIds, BackwardRefs, TargetsExist, FieldRules, ForwardMcp;
    NoFinishNoMove(cfg, env, db, c, p, now);
    match Resolve(cfg, db, c, now)
    case Refused(_, _) => ResolveMarks(cfg, db, c, now);
    case Ready(row, wf) =>
      if SubmitRefusal(env, db, c, row, wf, stepId, content).None? {
        var i := FindStep(wf, stepId);
        if wf.steps[i].artifacts != [] {
          ArtifactOutcome(cfg, env, db, c, p, row, wf, i, content, branch, artifact, now);
        } else {
          ContentOutcome(cfg, env, db, c, p, row, wf, i, content, branch, now);
        }
      }
  }
}
