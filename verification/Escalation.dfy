/** What an escalation stops, and what it does not: an escalated session refuses every call
    addressed to it but a revision, yet it moves on when its called child completes. Exactly when
    it moves is decided on the tables before the call. */
module Escalation {
  import opened Options
  import opened Workflows
  import opened References
  import opened Tables
  import opened ToolSpecs
  import opened StackSafety
  import opened Soundness
  import opened SessionMoves
  import opened ToolMoves
  import opened Handovers
  import Progress

  // --- A submission concerns one session and its parent -------------------------------------------

  /** Apart from s and the session below it no session appeared or moved. */
  ghost predicate OnlyPair(a: Db, b: Db, s: Sid) {
    forall o :: o in b.sessions ==> o in a.sessions && (o == s || ParentOf(a, s) == Some(o) || Rests(a.sessions[o], b.sessions[o]))
  }

  lemma RestIsPair(a: Db, b: Db, s: Sid)
    requires AllRest(a, b)
    ensures OnlyPair(a, b, s)
  {
  }

  lemma PairAfterRest(a: Db, b: Db, c: Db, s: Sid)
    requires AllRest(a, b) && SameShape(a, b) && OnlyPair(b, c, s)
    ensures OnlyPair(a, c, s)
  {
    SameParent(a, b, s);
  }

  lemma SameParent(a: Db, b: Db, s: Sid)
    requires SameShape(a, b)
    ensures ParentOf(a, s) == ParentOf(b, s)
  {
  }

  /** One session moved, then one other write. */
  lemma PairFrom(a: Db, b: Db, c: Db, s: Sid)
    requires Others(a, b, s) && SameShape(a, b)
    requires AllRest(b, c) || exists p :: ParentOf(b, s) == Some(p) && Others(b, c, p)
    requires forall o :: o in c.sessions ==> o in b.sessions
    ensures OnlyPair(a, c, s)
  {
    SameParent(a, b, s);
  }

  lemma MovementOthers(db: Db, s: Sid, m: Movement, now: int)
    ensures var b := WriteMovement(db, s, m, now); SameShape(db, b) && Others(db, b, s)
  {
    MovementSameShape(db, s, m, now);
    MovementWrites(db, s, m, now);
  }

  lemma AutoResumeOthers(cfg: Config, env: Env, db: Db, s: Sid, p: Sid, wf: Workflow, data: StepData, now: int)
    requires WellFormedConfig(cfg) && |wf.steps| > 0
    ensures var b := AutoResume(cfg, env, db, s, p, wf, data, now).0;
            Others(db, b, p) && forall o :: o in b.sessions ==> o in db.sessions
  {
    AutoResumeMoves(cfg, env, db, s, p, wf, data, now);
  }

  lemma CommitPair(cfg: Config, env: Env, db: Db, s: Sid, row: Session, wf: Workflow, i: nat, content: string, branch: string, now: int)
    requires WellFormedConfig(cfg) && WellFormedWorkflow(wf) && i < |wf.steps| && s in db.sessions
    ensures OnlyPair(db, Commit(cfg, env, db, s, row, wf, i, content, branch, now).0, s)
  {
    hide Move, WriteMovement, AutoResume, FailUpwards, OnlyPair, Others, SameShape, AllRest, ParentOf;
    hide UniqueIds, BackwardRefs, TargetsExist, FieldRules, ForwardMcp;
    var data := row.stepData[wf.steps[i].id := content];
    var fired := FirstGuardrail(env, wf.guardrails, content, data, row, wf.steps[i].id);
    if fired.Some? && fired.value.action.Escalate? {
      EscalatePair(db, s, fired.value.id, data, now);
    } else {
      var requested := Requested(wf, i, fired, branch);
      if requested.Some? {
        MovePair(cfg, env, db, s, wf, Move(env, wf, requested.value.0, data, requested.value.1), now);
      } else {
        NothingMoved(db);
        RestIsPair(db, db, s);
      }
    }
  }

  lemma NothingMoved(db: Db)
    ensures AllRest(db, db)
  {
  }

  lemma EscalatePair(db: Db, s: Sid, reason: string, data: StepData, now: int)
    requires s in db.sessions
    ensures OnlyPair(db, FailUpwards(SetData(SetEscalation(db, s, reason, now), s, data, now), s, Error(SessionEscalated), now).0, s)
  {
    hide FailUpwards, ParentOf, OnlyPair;
    var db0 := SetEscalation(db, s, reason, now);
    var db1 := SetData(db0, s, data, now);
    EscalatedWrites(db, s, reason, data, now);
    SetEscalationSameShape(db, s, reason, now);
    SetDataSameShape(db0, s, data, now);
    SameShapeTransitive(db, db0, db1);
    FailUpwardsRests(db1, s, Error(SessionEscalated), now);
    PairFrom(db, db1, FailUpwards(db1, s, Error(SessionEscalated), now).0, s);
  }

  lemma MovePair(cfg: Config, env: Env, db: Db, s: Sid, wf: Workflow, m: Movement, now: int)
    requires WellFormedConfig(cfg) && |wf.steps| > 0
    ensures var db1 := WriteMovement(db, s, m, now);
            && OnlyPair(db, db1, s)
            && OnlyPair(db, FailUpwards(db1, s, Error(SkippedPredecessor), now).0, s)
            && (m.Moved? && ParentOf(db1, s).Some? ==>
                  OnlyPair(db, AutoResume(cfg, env, db1, s, ParentOf(db1, s).value, wf, m.data, now).0, s))
  {
    hide WriteMovement, AutoResume, FailUpwards, OnlyPair, SameShape, ParentOf;
    var db1 := WriteMovement(db, s, m, now);
    MovementOthers(db, s, m, now);
    NothingMoved(db1);
    PairFrom(db, db1, db1, s);
    FailUpwardsRests(db1, s, Error(SkippedPredecessor), now);
    PairFrom(db, db1, FailUpwards(db1, s, Error(SkippedPredecessor), now).0, s);
    if m.Moved? && ParentOf(db1, s).Some? {
      AutoResumeOthers(cfg, env, db1, s, ParentOf(db1, s).value, wf, m.data, now);
      PairFrom(db, db1, AutoResume(cfg, env, db1, s, ParentOf(db1, s).value, wf, m.data, now).0, s);
    }
  }

  lemma AcceptedPair(cfg: Config, env: Env, db: Db, s: Sid, row: Session, wf: Workflow, i: nat, content: string, branch: string,
                     artifact: string, now: int)
    requires WellFormedConfig(cfg) && WellFormedWorkflow(wf) && i < |wf.steps| && s in db.sessions
    ensures OnlyPair(db, SubmitArtifact(cfg, env, db, s, row, wf, i, content, branch, artifact, now).0, s)
    ensures OnlyPair(db, SubmitContent(cfg, env, db, s, row, wf, i, content, branch, now).0, s)
  {
    hide Commit, FailUpwards, StoreArtifact, IncRetry, OnlyPair, SameShape, AllRest, Others, ParentOf;
    hide UniqueIds, BackwardRefs, TargetsExist, FieldRules, ForwardMcp;
    var step := wf.steps[i];
    NothingMoved(db);
    RestIsPair(db, db, s);
    var stored := StoreArtifact(db, s, step.id, artifact, content, now);
    StoreArtifactRests(db, s, step.id, artifact, content, now);
    StoreArtifactSameShape(db, s, step.id, artifact, content, now);
    RestIsPair(db, stored, s);
    CommitPair(cfg, env, stored, s, row, wf, i, content, branch, now);
    PairAfterRest(db, stored, Commit(cfg, env, stored, s, row, wf, i, content, branch, now).0, s);
    CommitPair(cfg, env, db, s, row, wf, i, content, branch, now);
    RetriedPair(db, s, step.id, now);
  }

  lemma RetriedPair(db: Db, s: Sid, step: StepId, now: int)
    ensures var retried := IncRetry(db, s, step, now);
            OnlyPair(db, retried, s) && OnlyPair(db, FailUpwards(retried, s, ValidationError(true), now).0, s)
  {
    hide FailUpwards, ParentOf, IncRetry, SameShape;
    var retried := IncRetry(db, s, step, now);
    IncRetryRests(db, s, step, now);
    FailUpwardsRests(retried, s, ValidationError(true), now);
  }

  /** A submission to s: it is refused without a trace, or only marks, or concerns s and the
      session below it. An escalated s is refused. */
  lemma SubmitPair(cfg: Config, env: Env, db: Db, s: Sid, stepId: StepId, content: string, branch: string, artifact: string, now: int)
    requires WellFormedConfig(cfg)
    ensures var b := SubmitStep(cfg, env, db, s, stepId, content, branch, artifact, now).0;
            AllMarked(cfg, db, b) || (OnlyPair(db, b, s) && s in db.sessions && db.sessions[s].escalation.None?)
  {
    hide SubmitArtifact, SubmitContent, OnlyPair, AllMarked, TopFrame, Stale;
    hide UniqueIds, BackwardRefs, TargetsExist, FieldRules, ForwardMcp;
    NothingMoved(db);
    RestsAreMarked(cfg, db, db);
    match Resolve(cfg, db, s, now)
    case Refused(_, _) => ResolveMarks(cfg, db, s, now);
    case Ready(row, wf) =>
      if SubmitRefusal(env, db, s, row, wf, stepId, content).None? {
        AcceptedPair(cfg, env, db, s, row, wf, FindStep(wf, stepId), content, branch, artifact, now);
      }
  }

  // --- The two halves ------------------------------------------------------------------------------

  lemma CreatedStill(cfg: Config, env: Env, a: Db, b: Db, s: Sid)
    requires WellFormedConfig(cfg) && Sound(a) && s in a.sessions && s in b.sessions
    requires b == a || AllMarked(cfg, a, b) || Created(cfg, env, a, b)
    ensures Still(cfg, a.sessions[s], b.sessions[s])
  {
    hide FreshRow, Marked;
  }

  /** In any call, evictions included, the position and data of a session stay (or it gets the
      terminal mark), except when the call revises it, submits to it, or submits to the session
      framed directly above it. An escalated session is not moved by a submission to itself. */
  lemma MovesOnlyFromAbove(db: Db, e: Event, victims: set<Sid>, s: Sid)
    requires WellFormedConfig(e.cfg) && Sound(db)
    requires s in db.sessions && s in ApplyEvicting(db, e, victims).0.sessions
    ensures || Still(e.cfg, db.sessions[s], ApplyEvicting(db, e, victims).0.sessions[s])
            || (e.call.Revise? && e.call.s == s)
            || (e.call.Submit? && e.call.s == s && db.sessions[s].escalation.None?)
            || (e.call.Submit? && ParentOf(db, e.call.s) == Some(s))
  {
    hide Still, AllMarked, Created, OnlyPair, Others, ParentOf, RevisedTo, Sound;
    hide StartWorkflow, SubmitStep, ReviseStep, EnterSubWorkflow, PushFlow, PopFlow, DeleteTool;
    var b := ApplyEvicting(db, e, victims).0;
    match e.call {
      case Start(name) => StartMoves(e.cfg, e.env, db, name, victims, e.now);
      case Enter(p, stepId) => EnterMoves(e.cfg, e.env, db, p, stepId, victims, e.now);
      case Push(p, name, stepId) => PushMoves(e.cfg, e.env, db, p, name, stepId, victims, e.now);
      case Pop(c) => PopMoves(e.cfg, db, c, e.now);
      case Delete(c) => DeleteMoves(e.cfg, db, c);
      case Revise(c, stepId) =>
        ReviseMoves(e.cfg, e.env, db, c, stepId, e.now);
        if c != s && Others(db, b, c) {
          OtherStill(e.cfg, db, b, c, s);
        }
      case Submit(c, stepId, content, branch, artifact) =>
        SubmitPair(e.cfg, e.env, db, c, stepId, content, branch, artifact, e.now);
        if c != s && OnlyPair(db, b, c) {
          PairStill(e.cfg, db, b, c, s);
        }
    }
    if b == db || AllMarked(e.cfg, db, b) || Created(e.cfg, e.env, db, b) {
      CreatedStill(e.cfg, e.env, db, b, s);
    }
  }

  /** Where an accepted revision of s leads. */
  ghost function RevisionOf(cfg: Config, db: Db, s: Sid, stepId: StepId, now: int): Option<(StepId, StepData)> {
    if stepId == "" then None
    else
      match Resolve(cfg, db, s, now)
      case Refused(_, _) => None
      case Ready(row, wf) =>
        if ReviseRefusal(db, s, row, wf, stepId).Some? then None
        else
          var i := FindStep(wf, stepId);
          Some((stepId, row.stepData - StepsAfter(wf, i) - if wf.steps[i].call.Some? then {stepId} else {}))
  }

  /** Where a hand-over leads the session below. */
  function Onward(m: Option<Movement>): Option<(StepId, StepData)> {
    if m.Some? && !m.value.Blocked? then Some((m.value.at, m.value.data)) else None
  }

  /** The position and data a call gives an escalated session s, read off the tables before the
      call: an accepted revision of s, or an accepted submission that finishes the called child
      directly above s, whose artifact s does not refuse and whose skip loop does not raise. */
  ghost function Destination(db: Db, e: Event, s: Sid): Option<(StepId, StepData)>
    requires WellFormedConfig(e.cfg)
  {
    match e.call
    case Revise(c, stepId) => if c == s then RevisionOf(e.cfg, db, s, stepId, e.now) else None
    case Submit(c, stepId, content, branch, artifact) =>
      if ParentOf(db, c) != Some(s) then None
      else Onward(ParentMove(e.cfg, e.env, db, c, s, FinishOf(e.cfg, e.env, db, c, stepId, content, branch, artifact, e.now), e.now))
    case _ => None
  }

  /** A destination is only ever given to a session that resolves. */
  lemma DestinationIsLive(db: Db, e: Event, s: Sid)
    requires WellFormedConfig(e.cfg) && s in db.sessions && Destination(db, e, s).Some?
    ensures !Stale(e.cfg, db.sessions[s])
  {
    hide FinishOf, ReviseRefusal, Move, FinalArtifact, ParentOf, UniqueIds, BackwardRefs, TargetsExist, FieldRules, ForwardMcp;
  }

  lemma RevisedArrives(cfg: Config, db: Db, s: Sid, stepId: StepId, now: int)
    requires WellFormedConfig(cfg) && Sound(db) && s in db.sessions && s in ReviseStep(cfg, db, s, stepId, now).0.sessions
    ensures var a, b := db.sessions[s], ReviseStep(cfg, db, s, stepId, now).0.sessions[s];
            var d := RevisionOf(cfg, db, s, stepId, now);
            if d.Some? then SameIdentity(a, b) && (b.currentStep, b.stepData) == d.value else Still(cfg, a, b)
  {
    hide ReviseTo, Stale, TopFrame, Sound, WellFormedConfig, StepsAfter;
    match Resolve(cfg, db, s, now)
    case Refused(_, _) => ResolveMarks(cfg, db, s, now);
    case Ready(row, wf) =>
      if ReviseRefusal(db, s, row, wf, stepId).None? {
        NotAboveItself(db, s);
        ReviseToWrites(db, s, wf, FindStep(wf, stepId), now);
      }
  }

  lemma NotAboveItself(db: Db, s: Sid)
    requires Sound(db)
    ensures TopFrame(db, s) != Some(s)
  {
  }

  /** An escalated session moves exactly when the call gives it another position or other data:
      every destination is reached, and without one it stays. */
  lemma EscalatedMovesIff(db: Db, e: Event, victims: set<Sid>, s: Sid)
    requires WellFormedConfig(e.cfg) && Sound(db)
    requires s in db.sessions && s in ApplyEvicting(db, e, victims).0.sessions && db.sessions[s].escalation.Some?
    ensures var a, b := db.sessions[s], ApplyEvicting(db, e, victims).0.sessions[s];
            var d := Destination(db, e, s);
            && (d.Some? ==> SameIdentity(a, b) && (b.currentStep, b.stepData) == d.value)
            && (Still(e.cfg, a, b) <==> d.None? || d.value == (a.currentStep, a.stepData))
  {
    hide FinishOf, ParentMove, RevisionOf, ReviseStep, SubmitStep, Sound, ParentOf;
    MovesOnlyFromAbove(db, e, victims, s);
    NeighboursUnique(db, s);
    if e.call.Revise? && e.call.s == s {
      RevisedArrives(e.cfg, db, s, e.call.stepId, e.now);
    } else if e.call.Submit? && ParentOf(db, e.call.s) == Some(s) {
      var Submit(c, stepId, content, branch, artifact) := e.call;
      SubmitOutcome(e.cfg, e.env, db, c, s, stepId, content, branch, artifact, e.now);
    }
    if Destination(db, e, s).Some? {
      DestinationIsLive(db, e, s);
    }
  }

  /** A hand-over over a call-step without branches always moves the session: its position is
      strictly later, escalated or not. */
  lemma HandoverMovesOn(db: Db, e: Event, s: Sid)
    requires WellFormedConfig(e.cfg) && s in db.sessions && e.call.Submit? && Destination(db, e, s).Some?
    ensures db.sessions[s].workflowType in e.cfg.workflows
    ensures var wf := e.cfg.workflows[db.sessions[s].workflowType];
            var i := FindStep(wf, db.sessions[s].currentStep);
            i >= 0 && (wf.steps[i].branches == [] ==> Position(wf, Destination(db, e, s).value.0) > i)
  {
    hide FinishOf, Move, FinalArtifact, ParentOf, Stale, UniqueIds, BackwardRefs, TargetsExist, FieldRules, ForwardMcp;
    var row, wf := db.sessions[s], e.cfg.workflows[db.sessions[s].workflowType];
    var f := FinishOf(e.cfg, e.env, db, e.call.s, e.call.stepId, e.call.content, e.call.branch, e.call.artifact, e.now).value;
    Progress.MoveForward(e.env, wf, FindStep(wf, row.currentStep), row.stepData[row.currentStep := FinalArtifact(f.wf, f.data)]);
  }

  lemma OtherStill(cfg: Config, a: Db, b: Db, c: Sid, s: Sid)
    requires Others(a, b, c) && s != c && s in b.sessions
    ensures s in a.sessions && Still(cfg, a.sessions[s], b.sessions[s])
  {
  }

  lemma PairStill(cfg: Config, a: Db, b: Db, c: Sid, s: Sid)
    requires OnlyPair(a, b, c) && s != c && s in b.sessions
    ensures s in a.sessions && (Still(cfg, a.sessions[s], b.sessions[s]) || ParentOf(a, c) == Some(s))
  {
  }

  /** A live escalated session refuses submission, entering, pushing and popping, and the tables
      stay as they were; an empty argument is refused before the session is looked at. */
  lemma EscalatedRefuses(db: Db, e: Event, victims: set<Sid>, s: Sid)
    requires WellFormedConfig(e.cfg) && s in db.sessions && Live(e.cfg, db.sessions[s]) && db.sessions[s].escalation.Some?
    requires e.call.Submit? || e.call.Enter? || e.call.Push? || e.call.Pop?
    requires e.call.s == s
    ensures var (b, reply) := ApplyEvicting(db, e, victims);
            && b == db
            && (reply == Error(SessionEscalated) || (reply == Error(WorkflowComplete) && db.sessions[s].currentStep == COMPLETE)
                || (reply == Error(InvalidArgument) && EmptyArgument(e.call)))
  {
    hide SubmitArtifact, SubmitContent, CallChild, SpawnChild, ResumeOuter, TopFrame, PushFull, ParentOf, Stale;
    hide UniqueIds, BackwardRefs, TargetsExist, FieldRules, ForwardMcp;
  }
}
