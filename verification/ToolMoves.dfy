/** Each tool call, in sound tables and with any evictions, moves the surviving sessions only as
    SessionMoves allows. */
module ToolMoves {
  import opened Options
  import opened Workflows
  import opened References
  import opened InlineExecution
  import opened Tables
  import opened ToolSpecs
  import opened StackSafety
  import opened Soundness
  import opened SessionMoves

  // --- submit_step --------------------------------------------------------------------------

  lemma StoreArtifactRests(db: Db, s: Sid, step: StepId, artifact: string, content: string, now: int)
    ensures var b := StoreArtifact(db, s, step, artifact, content, now); AllRest(db, b) && b.sessions.Keys == db.sessions.Keys
  {
  }

  lemma IncRetryRests(db: Db, s: Sid, step: StepId, now: int)
    ensures var b := IncRetry(db, s, step, now); AllRest(db, b) && b.sessions.Keys == db.sessions.Keys
  {
  }

  lemma CommitStoredMoves(cfg: Config, env: Env, db: Db, s: Sid, i: nat, content: string, branch: string, artifact: string, now: int)
    requires WellFormedConfig(cfg) && Sound(db) && s in db.sessions && Live(cfg, db.sessions[s])
    requires i == FindStep(cfg.workflows[db.sessions[s].workflowType], db.sessions[s].currentStep)
    requires Fits(env, cfg.workflows[db.sessions[s].workflowType].steps[i], content)
    ensures var row := db.sessions[s]; var wf := cfg.workflows[row.workflowType];
            var stored := StoreArtifact(db, s, wf.steps[i].id, artifact, content, now);
            && AllMove(cfg, env, db, stored)
            && AllMove(cfg, env, db, Commit(cfg, env, stored, s, row, wf, i, content, branch, now).0)
  {
    var row := db.sessions[s];
    var wf := cfg.workflows[row.workflowType];
    var step := wf.steps[i];
    var stored := StoreArtifact(db, s, step.id, artifact, content, now);
    StoreArtifactRests(db, s, step.id, artifact, content, now);
    AllRestMove(cfg, env, db, stored);
    StoreArtifactSameShape(db, s, step.id, artifact, content, now);
    SameShapeSound(db, stored);
    CommitMoves(cfg, env, stored, s, row, i, content, branch, now);
    RestThenMove(cfg, env, db, stored, Commit(cfg, env, stored, s, row, wf, i, content, branch, now).0);
  }

  lemma {:induction false} FoundArtifact(artifacts: seq<Artifact>, id: string)
    ensures var d := FindArtifact(artifacts, id); d.Some? ==> d.value in artifacts && d.value.id == id
  {
    if artifacts != [] {
      FoundArtifact(artifacts[1..], id);
    }
  }

  lemma SubmitArtifactMoves(cfg: Config, env: Env, db: Db, s: Sid, i: nat, content: string, branch: string, artifact: string, now: int)
    requires WellFormedConfig(cfg) && Sound(db) && s in db.sessions && Live(cfg, db.sessions[s])
    requires i == FindStep(cfg.workflows[db.sessions[s].workflowType], db.sessions[s].currentStep)
    requires cfg.workflows[db.sessions[s].workflowType].steps[i].artifacts != []
    ensures var row := db.sessions[s];
            AllMove(cfg, env, db, SubmitArtifact(cfg, env, db, s, row, cfg.workflows[row.workflowType], i, content, branch, artifact, now).0)
  {
    hide AllMove, Sound, Commit, StoreArtifact, UniqueIds, BackwardRefs, TargetsExist, FieldRules, ForwardMcp, TopFrame;
    var step := cfg.workflows[db.sessions[s].workflowType].steps[i];
    AllRestMove(cfg, env, db, db);
    StoreArtifactRests(db, s, step.id, artifact, content, now);
    AllRestMove(cfg, env, db, StoreArtifact(db, s, step.id, artifact, content, now));
    FoundArtifact(step.artifacts, artifact);
    if Fits(env, step, content) {
      CommitStoredMoves(cfg, env, db, s, i, content, branch, artifact, now);
      CommitMoves(cfg, env, db, s, db.sessions[s], i, content, branch, now);
    }
  }

  lemma RetriedMoves(cfg: Config, env: Env, db: Db, s: Sid, step: StepId, now: int)
    requires WellFormedConfig(cfg)
    ensures var retried := IncRetry(db, s, step, now);
            AllMove(cfg, env, db, retried) && AllMove(cfg, env, db, FailUpwards(retried, s, ValidationError(true), now).0)
  {
    var retried := IncRetry(db, s, step, now);
    IncRetryRests(db, s, step, now);
    AllRestMove(cfg, env, db, retried);
    FailUpwardsRests(retried, s, ValidationError(true), now);
    MoveThenRest(cfg, env, db, retried, FailUpwards(retried, s, ValidationError(true), now).0);
  }

  lemma SubmitContentMoves(cfg: Config, env: Env, db: Db, s: Sid, i: nat, content: string, branch: string, now: int)
    requires WellFormedConfig(cfg) && Sound(db) && s in db.sessions && Live(cfg, db.sessions[s])
    requires i == FindStep(cfg.workflows[db.sessions[s].workflowType], db.sessions[s].currentStep)
    requires cfg.workflows[db.sessions[s].workflowType].steps[i].artifacts == []
    ensures var row := db.sessions[s];
            AllMove(cfg, env, db, SubmitContent(cfg, env, db, s, row, cfg.workflows[row.workflowType], i, content, branch, now).0)
  {
    hide AllMove, Sound, Commit;
    RetriedMoves(cfg, env, db, s, db.sessions[s].currentStep, now);
    if Fits(env, cfg.workflows[db.sessions[s].workflowType].steps[i], content) {
      CommitMoves(cfg, env, db, s, db.sessions[s], i, content, branch, now);
    }
  }

  lemma SubmitMoves(cfg: Config, env: Env, db: Db, s: Sid, stepId: StepId, content: string, branch: string, artifact: string, now: int)
    requires WellFormedConfig(cfg) && Sound(db)
    ensures AllMove(cfg, env, db, SubmitStep(cfg, env, db, s, stepId, content, branch, artifact, now).0)
  {
    hide AllMove, Sound, SubmitArtifact, SubmitContent, UniqueIds, BackwardRefs, TargetsExist, FieldRules,
         ForwardMcp, TopFrame;
    AllRestMove(cfg, env, db, db);
    match Resolve(cfg, db, s, now)
    case Refused(_, _) => ResolveMoves(cfg, env, db, s, now);
    case Ready(row, wf) =>
      if SubmitRefusal(env, db, s, row, wf, stepId, content).None? {
        if wf.steps[FindStep(wf, stepId)].artifacts != [] {
          SubmitArtifactMoves(cfg, env, db, s, FindStep(wf, stepId), content, branch, artifact, now);
        } else {
          SubmitContentMoves(cfg, env, db, s, FindStep(wf, stepId), content, branch, now);
        }
      }
  }

  /** The tables an accepted submission commits on: with the artifact stored first, or as they are. */
  function CommitBase(db: Db, s: Sid, step: Step, artifact: string, content: string, now: int): Db {
    var def := FindArtifact(step.artifacts, artifact);
    if def.Some? && def.value.checkpoint then StoreArtifact(db, s, step.id, artifact, content, now) else db
  }

  lemma BaseRests(db: Db, s: Sid, step: Step, artifact: string, content: string, now: int)
    ensures var base := CommitBase(db, s, step, artifact, content, now);
            AllRest(db, base) && base.sessions.Keys == db.sessions.Keys && SameShape(db, base)
  {
    StoreArtifactRests(db, s, step.id, artifact, content, now);
    StoreArtifactSameShape(db, s, step.id, artifact, content, now);
  }

  /** A submission answered with an advance or a completion went through a commit of the current step. */
  lemma AcceptedCommits(cfg: Config, env: Env, db: Db, s: Sid, stepId: StepId, content: string, branch: string, artifact: string, now: int)
    requires WellFormedConfig(cfg)
    ensures var r := SubmitStep(cfg, env, db, s, stepId, content, branch, artifact, now);
            r.1.Advanced? || r.1.Finished? ==>
              && s in db.sessions && Live(cfg, db.sessions[s]) && db.sessions[s].currentStep == stepId
              && var row, wf := db.sessions[s], cfg.workflows[db.sessions[s].workflowType]; var i := FindStep(wf, stepId);
                 && i >= 0
                 && r == Commit(cfg, env, CommitBase(db, s, wf.steps[i], artifact, content, now), s, row, wf, i, content, branch, now)
  {
    hide Commit, FailUpwards, StoreArtifact, IncRetry, TopFrame, Stale, UniqueIds, BackwardRefs, TargetsExist, FieldRules, ForwardMcp;
    FailsIsNoAdvance(s, ValidationError(true), now);
  }

  lemma FailsIsNoAdvance(s: Sid, reply: Reply, now: int)
    ensures forall db: Db :: var r := FailUpwards(db, s, reply, now).1; r == reply || r.Error?
  {
  }

  // --- start_workflow, enter_sub_workflow, push_flow --------------------------------------------

  /** A new session stands at the first step of its workflow, or where the MCP steps at the
      front of it left off, and carries the stamp of its own workflow. */
  ghost predicate FreshRow(cfg: Config, env: Env, row: Session)
    requires WellFormedConfig(cfg)
  {
    && row.workflowType in cfg.workflows && row.fingerprint == FingerprintFor(cfg, env, row.workflowType)
    && var wf := cfg.workflows[row.workflowType];
       var r := AutoRun(env, wf, wf.steps[0].id, map[], []);
       || (row.currentStep == wf.steps[0].id && row.stepData == map[])
       || (row.currentStep == r.at && row.stepData == r.data)
  }

  /** At most the session under the next free id appeared, and no other one moved. */
  ghost predicate Created(cfg: Config, env: Env, a: Db, b: Db)
    requires WellFormedConfig(cfg)
  {
    Others(a, b, a.nextSid) && (a.nextSid in b.sessions ==> FreshRow(cfg, env, b.sessions[a.nextSid]))
  }

  lemma OthersThen(a: Db, b: Db, c: Db, s: Sid)
    requires Others(a, b, s) && Others(b, c, s)
    ensures Others(a, c, s)
  {
  }

  lemma RestOthers(a: Db, b: Db, s: Sid)
    requires AllRest(a, b)
    ensures Others(a, b, s)
  {
  }

  lemma IncVisitRests(db: Db, s: Sid, step: StepId, now: int)
    ensures var b := IncVisit(db, s, step, now); b.sessions.Keys == db.sessions.Keys && AllRest(db, b)
  {
  }

  lemma RunFrontWrites(db: Db, s: Sid, wf: Workflow, first: StepId, r: AutoResult, now: int)
    ensures var b := RunFront(db, s, wf, first, r, now).0;
            && b.sessions.Keys == db.sessions.Keys && Others(db, b, s)
            && (s in db.sessions ==>
                  && SameIdentity(db.sessions[s], b.sessions[s])
                  && (Rests(db.sessions[s], b.sessions[s])
                      || (b.sessions[s].currentStep == r.at && b.sessions[s].stepData == r.data)))
  {
    hide IncVisits, IncVisit, SetStepAndData, Others;
    var db1 := IncVisits(db, s, r.executed, now);
    IncVisitsRest(db, s, r.executed, now);
    RestOthers(db, db1, s);
    SetBothMoves(db1, s, r.at, r.data, now);
    OthersThen(db, db1, SetStepAndData(db1, s, r.at, r.data, now), s);
    var db2 := if r.at != first then SetStepAndData(db1, s, r.at, r.data, now) else db1;
    IncVisitRests(db2, s, r.at, now);
    RestOthers(db2, IncVisit(db2, s, r.at, now), s);
    OthersThen(db, db2, IncVisit(db2, s, r.at, now), s);
  }

  lemma NewRootWrites(cfg: Config, env: Env, db: Db, name: Name, victims: set<Sid>, now: int)
    requires WellFormedConfig(cfg) && name in cfg.workflows
    ensures var b := NewRoot(cfg, env, db, name, victims, now); var first := cfg.workflows[name].steps[0].id;
            && Others(db, b, db.nextSid) && db.nextSid in b.sessions
            && Rests(NewSession(name, first, None, FingerprintFor(cfg, env, name), now), b.sessions[db.nextSid])
  {
    var first := cfg.workflows[name].steps[0].id;
    var created := CreateRoot(db, victims, name, first, FingerprintFor(cfg, env, name), now);
    IncVisitRests(created, db.nextSid, first, now);
  }

  lemma StartMoves(cfg: Config, env: Env, db: Db, name: Name, victims: set<Sid>, now: int)
    requires WellFormedConfig(cfg)
    ensures var b := StartWorkflow(cfg, env, db, name, victims, now).0; b == db || Created(cfg, env, db, b)
  {
    if name in cfg.workflows && CountActive(db) < MAX_ACTIVE {
      var wf := cfg.workflows[name];
      var first := wf.steps[0].id;
      var root, r := NewRoot(cfg, env, db, name, victims, now), AutoRun(env, wf, first, map[], []);
      NewRootWrites(cfg, env, db, name, victims, now);
      RunFrontWrites(root, db.nextSid, wf, first, r, now);
      OthersThen(db, root, RunFront(root, db.nextSid, wf, first, r, now).0, db.nextSid);
    }
  }

  lemma CreateChildWrites(db: Db, victims: set<Sid>, target: Name, step: StepId, p: Sid, kind: FrameKind,
                          callStep: Option<StepId>, maxDepth: Option<nat>, fp: string, now: int)
    requires Sound(db)
    ensures var b := CreateChild(db, victims, target, step, p, kind, callStep, maxDepth, fp, now);
            && Others(db, b, db.nextSid)
            && (db.nextSid in b.sessions ==> b.sessions[db.nextSid] == NewSession(target, step, Some(p), fp, now))
  {
  }

  lemma SpawnWrites(cfg: Config, env: Env, db: Db, victims: set<Sid>, target: Name, p: Sid, kind: FrameKind,
                    callStep: Option<StepId>, maxDepth: Option<nat>, now: int)
    requires WellFormedConfig(cfg) && target in cfg.workflows && Sound(db)
    ensures Created(cfg, env, db, SpawnChild(cfg, env, db, victims, target, p, kind, callStep, maxDepth, now))
  {
    hide AutoRun, CreateChild, IncVisit, Sound;
    var first, fp := cfg.workflows[target].steps[0].id, FingerprintFor(cfg, env, target);
    var created := CreateChild(db, victims, target, first, p, kind, callStep, maxDepth, fp, now);
    CreateChildWrites(db, victims, target, first, p, kind, callStep, maxDepth, fp, now);
    IncVisitRests(created, db.nextSid, first, now);
    RestOthers(created, IncVisit(created, db.nextSid, first, now), db.nextSid);
    OthersThen(db, created, IncVisit(created, db.nextSid, first, now), db.nextSid);
  }

  lemma LinkRests(db: Db, p: Sid, c: Sid, step: StepId, now: int)
    ensures var b := LinkCalled(db, p, c, step, now); AllRest(db, b) && b.sessions.Keys == db.sessions.Keys
  {
  }

  lemma CallChildWrites(cfg: Config, env: Env, db: Db, victims: set<Sid>, target: Name, p: Sid, stepId: StepId, now: int)
    requires WellFormedConfig(cfg) && target in cfg.workflows && Sound(db)
    ensures Created(cfg, env, db, CallChild(cfg, env, db, victims, target, p, stepId, now))
  {
    hide AutoRun, SpawnChild, LinkCalled;
    var spawned := SpawnChild(cfg, env, db, victims, target, p, CallFrame, None, None, now);
    SpawnWrites(cfg, env, db, victims, target, p, CallFrame, None, None, now);
    LinkRests(spawned, p, db.nextSid, stepId, now);
    RestOthers(spawned, LinkCalled(spawned, p, db.nextSid, stepId, now), db.nextSid);
    OthersThen(db, spawned, LinkCalled(spawned, p, db.nextSid, stepId, now), db.nextSid);
  }

  lemma EnterMoves(cfg: Config, env: Env, db: Db, p: Sid, stepId: StepId, victims: set<Sid>, now: int)
    requires WellFormedConfig(cfg) && Sound(db)
    ensures var b := EnterSubWorkflow(cfg, env, db, p, stepId, victims, now).0; AllMarked(cfg, db, b) || Created(cfg, env, db, b)
  {
    hide AllMarked, Created, Sound, CallChild, UniqueIds, BackwardRefs, TargetsExist, FieldRules, ForwardMcp,
         TopFrame, ResolveRef;
    RestsAreMarked(cfg, db, db);
    match Resolve(cfg, db, p, now)
    case Refused(_, _) => ResolveMarks(cfg, db, p, now);
    case Ready(row, wf) =>
      if EnterRefusal(cfg, env, db, p, row, wf, stepId).None? {
        CallChildWrites(cfg, env, db, victims, wf.steps[FindStep(wf, stepId)].call.value, p, stepId, now);
      }
  }

  lemma PushMoves(cfg: Config, env: Env, db: Db, s: Sid, name: Name, pausedAt: StepId, victims: set<Sid>, now: int)
    requires WellFormedConfig(cfg) && Sound(db)
    ensures var b := PushFlow(cfg, env, db, s, name, pausedAt, victims, now).0; AllMarked(cfg, db, b) || Created(cfg, env, db, b)
  {
    hide AllMarked, Created, Sound, SpawnChild, UniqueIds, BackwardRefs, TargetsExist, FieldRules, ForwardMcp,
         TopFrame, CountActive, StackDepth;
    RestsAreMarked(cfg, db, db);
    match Resolve(cfg, db, s, now)
    case Refused(_, _) => ResolveMarks(cfg, db, s, now);
    case Ready(row, wf) =>
      if PushRefusal(cfg, db, s, row, name, pausedAt).None? {
        SpawnWrites(cfg, env, db, victims, name, s, DigressionFrame, Some(pausedAt), Some(MAX_STACK_DEPTH), now);
      }
  }

  // --- revise_step, pop_flow, delete_session -------------------------------------------------------

  lemma DropDataWrites(db: Db, s: Sid, steps: set<StepId>, now: int)
    ensures var b := DropData(db, s, steps, now);
            && b.sessions.Keys == db.sessions.Keys && b.frames == db.frames && Others(db, b, s)
            && (s in db.sessions ==> b.sessions[s].stepData == db.sessions[s].stepData - steps
                                     && SameIdentity(db.sessions[s], b.sessions[s]))
  {
  }

  /** What an accepted revision writes into the revised row. */
  lemma ReviseToWrites(db: Db, s: Sid, wf: Workflow, i: nat, now: int)
    requires i < |wf.steps| && s in db.sessions && TopFrame(db, s) != Some(s)
    ensures var b := ReviseTo(db, s, wf, i, now);
            && b.sessions.Keys == db.sessions.Keys
                 - (if wf.steps[i].call.Some? && TopFrame(db, s).Some? then {TopFrame(db, s).value} else {})
            && Others(db, b, s)
            && b.sessions[s].currentStep == wf.steps[i].id && SameIdentity(db.sessions[s], b.sessions[s])
            && b.sessions[s].stepData == db.sessions[s].stepData - StepsAfter(wf, i)
                 - (if wf.steps[i].call.Some? then {wf.steps[i].id} else {})
  {
    var step := wf.steps[i];
    var db1 := DropData(db, s, StepsAfter(wf, i), now);
    DropDataWrites(db, s, StepsAfter(wf, i), now);
    var db2 := if step.call.Some? && TopFrame(db, s).Some? then Unlink(db1, TopFrame(db, s).value, s, now) else db1;
    if step.call.Some? && TopFrame(db, s).Some? {
      UnlinkRests(db1, TopFrame(db, s).value, s, now);
    }
    var db3 := if step.call.Some? then DropData(db2, s, {step.id}, now) else db2;
    DropDataWrites(db2, s, {step.id}, now);
    SetStepWrites(db3, s, step.id, now);
  }

  lemma ReviseMoves(cfg: Config, env: Env, db: Db, s: Sid, stepId: StepId, now: int)
    requires WellFormedConfig(cfg)
    ensures var b := ReviseStep(cfg, db, s, stepId, now).0;
            AllMarked(cfg, db, b)
            || (Others(db, b, s) && s in db.sessions && s in b.sessions && RevisedTo(cfg, db.sessions[s], b.sessions[s], stepId))
  {
    hide AllMarked, Others, ReviseTo, RevisedTo, Stale;
    RestsAreMarked(cfg, db, db);
    match Resolve(cfg, db, s, now)
    case Refused(_, _) => ResolveMarks(cfg, db, s, now);
    case Ready(row, wf) =>
      if ReviseRefusal(db, s, row, wf, stepId).None? {
        ReviseToReturns(cfg, db, s, stepId, now);
      }
  }

  lemma ReviseToReturns(cfg: Config, db: Db, s: Sid, stepId: StepId, now: int)
    requires s in db.sessions && Live(cfg, db.sessions[s])
    requires ReviseRefusal(db, s, db.sessions[s], cfg.workflows[db.sessions[s].workflowType], stepId).None?
    ensures var b := ReviseTo(db, s, cfg.workflows[db.sessions[s].workflowType], FindStep(cfg.workflows[db.sessions[s].workflowType], stepId), now);
            Others(db, b, s) && s in b.sessions && RevisedTo(cfg, db.sessions[s], b.sessions[s], stepId)
  {
    hide ReviseTo, Others, Stale;
    NotOwnTop(db, s);
    ReviseToWrites(db, s, cfg.workflows[db.sessions[s].workflowType], FindStep(cfg.workflows[db.sessions[s].workflowType], stepId), now);
  }

  lemma NotOwnTop(db: Db, s: Sid)
    ensures TopFrame(db, s) != Some(s)
  {
  }

  lemma PopMoves(cfg: Config, db: Db, s: Sid, now: int)
    ensures AllMarked(cfg, db, PopFlow(cfg, db, s, now).0)
  {
    hide AllMarked, Others, ResumeOuter, ParentOf, SetStep, Stale;
    match Resolve(cfg, db, s, now)
    case Refused(_, _) => ResolveMarks(cfg, db, s, now);
    case Ready(row, wf) =>
      RestsAreMarked(cfg, db, db);
      if ParentOf(db, s).Some? {
        ResumeOuterMarks(cfg, db, s, ParentOf(db, s).value, now);
      }
  }

  lemma DeleteMoves(cfg: Config, db: Db, s: Sid)
    ensures AllMarked(cfg, db, DeleteTool(db, s).0)
  {
    RestsAreMarked(cfg, db, DeleteTool(db, s).0);
  }

  // --- One call, with evictions ------------------------------------------------------------------------

  lemma ApplySound(db: Db, e: Event, victims: set<Sid>)
    requires WellFormedConfig(e.cfg) && Sound(db)
    ensures Sound(ApplyEvicting(db, e, victims).0)
  {
    match e.call
    case Start(name) => StartSound(e.cfg, e.env, db, name, victims, e.now);
    case Submit(s, stepId, content, branch, artifact) => SubmitSound(e.cfg, e.env, db, s, stepId, content, branch, artifact, e.now);
    case Revise(s, stepId) => ReviseSound(e.cfg, db, s, stepId, e.now);
    case Enter(s, stepId) => EnterSound(e.cfg, e.env, db, s, stepId, victims, e.now);
    case Push(s, name, stepId) => PushSound(e.cfg, e.env, db, s, name, stepId, victims, e.now);
    case Pop(s) => PopSound(e.cfg, db, s, e.now);
    case Delete(s) => DeleteSound(db, s);
  }

  /** What one call did to the session s: it moved, was revised by this call, or is new. */
  ghost predicate CallMoves(e: Event, a: Db, b: Db, s: Sid)
    requires WellFormedConfig(e.cfg) && s in b.sessions
  {
    || (s in a.sessions && Moves(e.cfg, e.env, a.sessions[s], b.sessions[s]))
    || (s in a.sessions && e.call.Revise? && e.call.s == s && RevisedTo(e.cfg, a.sessions[s], b.sessions[s], e.call.stepId))
    || (s !in a.sessions && s == a.nextSid && FreshRow(e.cfg, e.env, b.sessions[s]))
  }

  lemma OtherRowMoves(e: Event, a: Db, b: Db, x: Sid)
    requires WellFormedConfig(e.cfg) && Others(a, b, x)
    ensures forall s :: s in b.sessions && s != x ==> CallMoves(e, a, b, s)
  {
    forall s | s in b.sessions && s != x ensures CallMoves(e, a, b, s) {
      RowRests(e.cfg, e.env, a.sessions[s], b.sessions[s]);
    }
  }

  lemma CallMovesFrom(e: Event, a: Db, b: Db)
    requires WellFormedConfig(e.cfg) && Sound(a)
    requires AllMove(e.cfg, e.env, a, b) || Created(e.cfg, e.env, a, b)
             || (e.call.Revise? && e.call.s in a.sessions && e.call.s in b.sessions && Others(a, b, e.call.s)
                 && RevisedTo(e.cfg, a.sessions[e.call.s], b.sessions[e.call.s], e.call.stepId))
    ensures forall s :: s in b.sessions ==> CallMoves(e, a, b, s)
  {
    hide Moves, RevisedTo, FreshRow;
    if !AllMove(e.cfg, e.env, a, b) {
      OtherRowMoves(e, a, b, if Created(e.cfg, e.env, a, b) then a.nextSid else e.call.s);
    }
  }

  /** Every tool call, evictions included: what became of every session there is afterwards. */
  lemma ApplyMoves(db: Db, e: Event, victims: set<Sid>)
    requires WellFormedConfig(e.cfg) && Sound(db)
    ensures var b := ApplyEvicting(db, e, victims).0; forall s :: s in b.sessions ==> CallMoves(e, db, b, s)
  {
    hide AllMove, AllMarked, Created, CallMoves, RevisedTo, StartWorkflow, SubmitStep, ReviseStep, EnterSubWorkflow, PushFlow,
         PopFlow, DeleteTool;
    AllRestMove(e.cfg, e.env, db, db);
    match e.call {
      case Start(name) => StartMoves(e.cfg, e.env, db, name, victims, e.now);
      case Submit(s, stepId, content, branch, artifact) => SubmitMoves(e.cfg, e.env, db, s, stepId, content, branch, artifact, e.now);
      case Revise(s, stepId) => ReviseMoves(e.cfg, e.env, db, s, stepId, e.now);
      case Enter(s, stepId) => EnterMoves(e.cfg, e.env, db, s, stepId, victims, e.now);
      case Push(s, name, stepId) => PushMoves(e.cfg, e.env, db, s, name, stepId, victims, e.now);
      case Pop(s) => PopMoves(e.cfg, db, s, e.now);
      case Delete(s) => DeleteMoves(e.cfg, db, s);
    }
    var b := ApplyEvicting(db, e, victims).0;
    if AllMarked(e.cfg, db, b) {
      MarkedMoves(e.cfg, e.env, db, b);
    }
    CallMovesFrom(e, db, b);
  }

  // --- Whole runs, with evictions -------------------------------------------------------------------------

  datatype Tick = Tick(event: Event, victims: set<Sid>)

  ghost predicate Loaded(ticks: seq<Tick>) {
    forall t :: t in ticks ==> WellFormedConfig(t.event.cfg)
  }

  ghost function AfterTick(db: Db, t: Tick): Db
    requires WellFormedConfig(t.event.cfg)
  {
    ApplyEvicting(db, t.event, t.victims).0
  }

  ghost function AfterAll(db: Db, ticks: seq<Tick>): Db
    requires Loaded(ticks)
    decreases |ticks|
  {
    if ticks == [] then db else AfterAll(AfterTick(db, ticks[0]), ticks[1..])
  }

  /** The session is in the tables before and after every call of the run. */
  ghost predicate Survives(db: Db, ticks: seq<Tick>, s: Sid)
    requires Loaded(ticks)
    decreases |ticks|
  {
    s in db.sessions && (ticks == [] || Survives(AfterTick(db, ticks[0]), ticks[1..], s))
  }

  lemma {:induction false} RunsSound(db: Db, ticks: seq<Tick>)
    requires Sound(db) && Loaded(ticks)
    ensures Sound(AfterAll(db, ticks))
    decreases |ticks|
  {
    if ticks != [] {
      ApplySound(db, ticks[0].event, ticks[0].victims);
      RunsSound(AfterTick(db, ticks[0]), ticks[1..]);
    }
  }
}
