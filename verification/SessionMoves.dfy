/** How one tool call may change the progress of any session that survives it. Both the
    versioning rule and the progress rule are read off these moves. */
module SessionMoves {
  import opened Options
  import opened Workflows
  import opened References
  import opened Stepping
  import opened Tables
  import opened ToolSpecs
  import opened StackSafety
  import opened Soundness

  /** Neither position nor step data moved; type and stamp never do. */
  ghost predicate Rests(a: Session, b: Session) {
    && b.currentStep == a.currentStep && b.stepData == a.stepData
    && b.workflowType == a.workflowType && b.fingerprint == a.fingerprint
  }

  ghost predicate SameIdentity(a: Session, b: Session) {
    b.workflowType == a.workflowType && b.fingerprint == a.fingerprint
  }

  /** The session resolves: not terminal, workflow loaded, stamp current. */
  ghost predicate Live(cfg: Config, row: Session) {
    row.currentStep != WORKFLOW_CHANGED && row.workflowType in cfg.workflows && !Stale(cfg, row)
  }

  /** The content meets the schema of the step: of its output artifact when it has intermediate
      artifacts, its own otherwise. */
  ghost predicate Fits(env: Env, step: Step, content: string) {
    if step.artifacts != [] then exists d :: d in step.artifacts && d.id == step.outputFrom && env.conformsArtifact(d.schema, content)
    else step.outputSchema.Some? ==> env.conforms(step.outputSchema.value, content)
  }

  /** Fitting content of the current step was stored without moving on (guardrail escalation). */
  ghost predicate Stores(env: Env, wf: Workflow, a: Session, b: Session) {
    && FindStep(wf, a.currentStep) >= 0 && b.currentStep == a.currentStep
    && a.currentStep in b.stepData && Fits(env, wf.steps[FindStep(wf, a.currentStep)], b.stepData[a.currentStep])
    && b.stepData == a.stepData[a.currentStep := b.stepData[a.currentStep]]
  }

  /** The pointers a workflow can ask for after its step i. */
  ghost predicate RoutesTo(wf: Workflow, i: nat, next: StepId, forced: bool)
    requires i < |wf.steps|
  {
    if forced then exists g :: g in wf.guardrails && g.action == ForceBranch(next)
    else if wf.steps[i].branches != [] then next in wf.steps[i].branches || wf.steps[i].defaultBranch == Some(next)
    else next == NextInOrder(wf, i)
  }

  /** From step i with this data, the engine moved to what the skip loop and the MCP steps gave. */
  ghost predicate MovedOn(env: Env, wf: Workflow, i: nat, data: StepData, b: Session, next: StepId, forced: bool)
    requires i < |wf.steps| && UniqueIds(wf) && ForwardMcp(wf)
  {
    RoutesTo(wf, i, next, forced) &&
    var m := Move(env, wf, next, data, forced);
    !m.Blocked? && b.currentStep == m.at && b.stepData == m.data
  }

  ghost predicate Advances(env: Env, wf: Workflow, a: Session, b: Session, content: string, next: StepId, forced: bool)
    requires UniqueIds(wf) && ForwardMcp(wf)
  {
    var i := FindStep(wf, a.currentStep);
    i >= 0 && Fits(env, wf.steps[i], content) && MovedOn(env, wf, i, a.stepData[a.currentStep := content], b, next, forced)
  }

  /** The pointer went back to step t; later steps, and t itself when it is a call-step, lost
      their data. A target that is not stored is a call-step. */
  ghost predicate Returns(wf: Workflow, a: Session, b: Session, t: nat)
    requires t < |wf.steps|
  {
    && b.currentStep == wf.steps[t].id
    && b.stepData == a.stepData - StepsAfter(wf, t) - (if wf.steps[t].call.Some? then {wf.steps[t].id} else {})
    && (wf.steps[t].id in a.stepData || wf.steps[t].call.Some?)
  }

  ghost predicate LiveMove(env: Env, wf: Workflow, a: Session, b: Session)
    requires UniqueIds(wf) && ForwardMcp(wf)
  {
    || Stores(env, wf, a, b)
    || (exists content, next, forced :: Advances(env, wf, a, b, content, next, forced))
  }

  /** A stale session got the terminal mark. */
  ghost predicate Marked(cfg: Config, a: Session, b: Session) {
    && SameIdentity(a, b) && Stale(cfg, a) && a.currentStep != WORKFLOW_CHANGED
    && b.currentStep == WORKFLOW_CHANGED && b.stepData == a.stepData
  }

  /** Everything a tool call can do to a surviving session it does not revise. */
  ghost predicate Moves(cfg: Config, env: Env, a: Session, b: Session)
    requires WellFormedConfig(cfg)
  {
    || Rests(a, b)
    || Marked(cfg, a, b)
    || (SameIdentity(a, b) && Live(cfg, a) && LiveMove(env, cfg.workflows[a.workflowType], a, b))
  }

  /** ... and what a revision does to the session it revises. */
  ghost predicate RevisedTo(cfg: Config, a: Session, b: Session, stepId: StepId) {
    && SameIdentity(a, b) && Live(cfg, a)
    && var wf := cfg.workflows[a.workflowType];
       FindStep(wf, stepId) >= 0 && Returns(wf, a, b, FindStep(wf, stepId))
  }

  /** No session appeared, and those that survive moved. */
  ghost predicate AllMove(cfg: Config, env: Env, a: Db, b: Db)
    requires WellFormedConfig(cfg)
  {
    forall s :: s in b.sessions ==> s in a.sessions && Moves(cfg, env, a.sessions[s], b.sessions[s])
  }

  /** No session appeared, and those that survive rested or got the mark. */
  ghost predicate AllMarked(cfg: Config, a: Db, b: Db) {
    forall s :: s in b.sessions ==> s in a.sessions && (Rests(a.sessions[s], b.sessions[s]) || Marked(cfg, a.sessions[s], b.sessions[s]))
  }

  /** Apart from s no session appeared or moved. */
  ghost predicate Others(a: Db, b: Db, s: Sid) {
    forall o :: o in b.sessions && o != s ==> o in a.sessions && Rests(a.sessions[o], b.sessions[o])
  }

  // --- Writes and the progress columns ---------------------------------------------------------

  ghost predicate AllRest(a: Db, b: Db) {
    forall s :: s in b.sessions ==> s in a.sessions && Rests(a.sessions[s], b.sessions[s])
  }

  lemma {:induction false} IncVisitsRest(db: Db, s: Sid, steps: seq<StepId>, now: int)
    ensures AllRest(db, IncVisits(db, s, steps, now)) && IncVisits(db, s, steps, now).sessions.Keys == db.sessions.Keys
  {
    if steps != [] {
      IncVisitsRest(db, s, steps[..|steps| - 1], now);
    }
  }

  lemma SetBothMoves(db: Db, s: Sid, at: StepId, data: StepData, now: int)
    ensures var b := SetStepAndData(db, s, at, data, now);
            && b.sessions.Keys == db.sessions.Keys && Others(db, b, s)
            && (s in db.sessions ==> b.sessions[s].currentStep == at && b.sessions[s].stepData == data
                                     && SameIdentity(db.sessions[s], b.sessions[s]))
  {
  }

  /** A written movement changes the progress of its session only. */
  lemma MovementWrites(db: Db, s: Sid, m: Movement, now: int)
    ensures var b := WriteMovement(db, s, m, now);
            && b.sessions.Keys == db.sessions.Keys && Others(db, b, s)
            && (s in db.sessions && !m.Blocked? ==> b.sessions[s].currentStep == m.at && b.sessions[s].stepData == m.data
                                                    && SameIdentity(db.sessions[s], b.sessions[s]))
            && (m.Blocked? ==> b == db)
  {
    if !m.Blocked? {
      var db1 := IncVisits(db, s, m.executed, now);
      IncVisitsRest(db, s, m.executed, now);
      var db2 := if m.Moved? && m.at != COMPLETE then IncVisit(db1, s, m.at, now) else db1;
      assert AllRest(db1, db2) && db2.sessions.Keys == db1.sessions.Keys;
      SetBothMoves(db2, s, m.at, m.data, now);
    }
  }

  /** Only the row of s differs. */
  ghost predicate OnlyRow(a: Db, b: Db, s: Sid) {
    SameShape(a, b) && OthersSame(a, b, s)
  }

  lemma OnlyRowThen(a: Db, b: Db, c: Db, s: Sid)
    requires OnlyRow(a, b, s) && OnlyRow(b, c, s)
    ensures OnlyRow(a, c, s)
  {
  }

  lemma IncVisitOnlyRow(db: Db, s: Sid, step: StepId, now: int)
    ensures OnlyRow(db, IncVisit(db, s, step, now), s)
  {
  }

  lemma {:induction false} IncVisitsOnlyRow(db: Db, s: Sid, steps: seq<StepId>, now: int)
    ensures OnlyRow(db, IncVisits(db, s, steps, now), s)
  {
    hide OnlyRow, IncVisit;
    if steps == [] {
      SameIsOnlyRow(db, s);
    } else {
      IncVisitsOnlyRow(db, s, steps[..|steps| - 1], now);
      IncVisitOnlyRow(IncVisits(db, s, steps[..|steps| - 1], now), s, steps[|steps| - 1], now);
      OnlyRowThen(db, IncVisits(db, s, steps[..|steps| - 1], now), IncVisits(db, s, steps, now), s);
    }
  }

  lemma SameIsOnlyRow(db: Db, s: Sid)
    ensures OnlyRow(db, db, s)
  {
  }

  lemma SetBothOnlyRow(db: Db, s: Sid, at: StepId, data: StepData, now: int)
    ensures OnlyRow(db, SetStepAndData(db, s, at, data, now), s)
  {
  }

  lemma MovementOnlyRow(db: Db, s: Sid, m: Movement, now: int)
    ensures OnlyRow(db, WriteMovement(db, s, m, now), s)
  {
    hide OnlyRow, IncVisit, IncVisits, SetStepAndData;
    SameIsOnlyRow(db, s);
    if !m.Blocked? {
      var db1 := IncVisits(db, s, m.executed, now);
      IncVisitsOnlyRow(db, s, m.executed, now);
      IncVisitOnlyRow(db1, s, m.at, now);
      OnlyRowThen(db, db1, IncVisit(db1, s, m.at, now), s);
      var db2 := if m.Moved? && m.at != COMPLETE then IncVisit(db1, s, m.at, now) else db1;
      SetBothOnlyRow(db2, s, m.at, m.data, now);
      OnlyRowThen(db, db2, SetStepAndData(db2, s, m.at, m.data, now), s);
    }
  }

  lemma OnlyRowParent(a: Db, b: Db, s: Sid)
    requires OnlyRow(a, b, s)
    ensures ParentOf(b, s) == ParentOf(a, s) && b.frames == a.frames
  {
  }

  lemma StoreArtifactOnlyRow(db: Db, s: Sid, step: StepId, artifact: string, content: string, now: int)
    ensures OnlyRow(db, StoreArtifact(db, s, step, artifact, content, now), s)
  {
  }

  lemma FailUpwardsRests(db: Db, s: Sid, reply: Reply, now: int)
    ensures AllRest(db, FailUpwards(db, s, reply, now).0)
  {
  }

  lemma OneRowMoves(cfg: Config, env: Env, a: Db, b: Db, s: Sid)
    requires WellFormedConfig(cfg) && Others(a, b, s)
    requires s in b.sessions ==> s in a.sessions && Moves(cfg, env, a.sessions[s], b.sessions[s])
    ensures AllMove(cfg, env, a, b)
  {
    forall o | o in b.sessions ensures o in a.sessions && Moves(cfg, env, a.sessions[o], b.sessions[o]) {
      if o != s {
        RowRests(cfg, env, a.sessions[o], b.sessions[o]);
      }
    }
  }

  lemma RowRests(cfg: Config, env: Env, a: Session, b: Session)
    requires WellFormedConfig(cfg) && Rests(a, b)
    ensures Moves(cfg, env, a, b)
  {
  }

  lemma RowStores(cfg: Config, env: Env, a: Session, b: Session)
    requires WellFormedConfig(cfg) && SameIdentity(a, b) && Live(cfg, a) && Stores(env, cfg.workflows[a.workflowType], a, b)
    ensures Moves(cfg, env, a, b)
  {
  }

  lemma RowAdvances(cfg: Config, env: Env, a: Session, b: Session, content: string, next: StepId, forced: bool)
    requires WellFormedConfig(cfg) && SameIdentity(a, b) && Live(cfg, a)
    requires Advances(env, cfg.workflows[a.workflowType], a, b, content, next, forced)
    ensures Moves(cfg, env, a, b)
  {
  }

  lemma AllRestMove(cfg: Config, env: Env, a: Db, b: Db)
    requires WellFormedConfig(cfg) && AllRest(a, b)
    ensures AllMove(cfg, env, a, b)
  {
    forall s | s in b.sessions ensures s in a.sessions && Moves(cfg, env, a.sessions[s], b.sessions[s]) {
      RowRests(cfg, env, a.sessions[s], b.sessions[s]);
    }
  }

  lemma RestsAllMove(cfg: Config, env: Env, a: Db, b: Db, s: Sid)
    requires WellFormedConfig(cfg) && AllRest(a, b)
    ensures AllMove(cfg, env, a, b) && Others(a, b, s)
  {
    AllRestMove(cfg, env, a, b);
  }

  lemma SetEscalationRests(db: Db, s: Sid, reason: string, now: int)
    ensures AllRest(db, SetEscalation(db, s, reason, now)) && SetEscalation(db, s, reason, now).sessions.Keys == db.sessions.Keys
  {
  }

  lemma SetStepWrites(db: Db, s: Sid, at: StepId, now: int)
    ensures var b := SetStep(db, s, at, now);
            && b.sessions.Keys == db.sessions.Keys && Others(db, b, s)
            && (s in db.sessions ==> b.sessions[s].currentStep == at && b.sessions[s].stepData == db.sessions[s].stepData
                                     && SameIdentity(db.sessions[s], b.sessions[s]))
  {
  }

  lemma ResolveMarks(cfg: Config, db: Db, s: Sid, now: int)
    ensures var a := Resolve(cfg, db, s, now); a.Refused? ==> AllMarked(cfg, db, a.db) && Others(db, a.db, s)
  {
    var a := Resolve(cfg, db, s, now);
    if a.Refused? && a.db != db {
      SetStepWrites(db, s, WORKFLOW_CHANGED, now);
    }
  }

  lemma MarkedMoves(cfg: Config, env: Env, a: Db, b: Db)
    requires WellFormedConfig(cfg) && AllMarked(cfg, a, b)
    ensures AllMove(cfg, env, a, b)
  {
    hide LiveMove;
  }

  lemma ResolveMoves(cfg: Config, env: Env, db: Db, s: Sid, now: int)
    requires WellFormedConfig(cfg)
    ensures var a := Resolve(cfg, db, s, now); a.Refused? ==> AllMove(cfg, env, db, a.db) && Others(db, a.db, s)
  {
    hide AllMarked, AllMove;
    ResolveMarks(cfg, db, s, now);
    var a := Resolve(cfg, db, s, now);
    if a.Refused? {
      MarkedMoves(cfg, env, db, a.db);
    }
  }

  /** Two writes in a row, the first resting. */
  lemma RestThenMove(cfg: Config, env: Env, a: Db, b: Db, c: Db)
    requires WellFormedConfig(cfg) && AllRest(a, b) && b.sessions.Keys == a.sessions.Keys && AllMove(cfg, env, b, c)
    ensures AllMove(cfg, env, a, c)
  {
    forall s | s in c.sessions ensures s in a.sessions && Moves(cfg, env, a.sessions[s], c.sessions[s]) {
      RowRestThenMove(cfg, env, a.sessions[s], b.sessions[s], c.sessions[s]);
    }
  }

  lemma RowRestThenMove(cfg: Config, env: Env, a: Session, b: Session, c: Session)
    requires WellFormedConfig(cfg) && Rests(a, b) && Moves(cfg, env, b, c)
    ensures Moves(cfg, env, a, c)
  {
    if SameIdentity(b, c) && Live(cfg, b) && LiveMove(env, cfg.workflows[b.workflowType], b, c) {
      var wf := cfg.workflows[a.workflowType];
      if exists content, next, forced :: Advances(env, wf, b, c, content, next, forced) {
        var content, next, forced :| Advances(env, wf, b, c, content, next, forced);
        RowAdvances(cfg, env, a, c, content, next, forced);
      }
    }
  }

  // --- Handing over to the parent ----------------------------------------------------------------

  lemma RestsAreMarked(cfg: Config, a: Db, b: Db)
    requires AllRest(a, b)
    ensures AllMarked(cfg, a, b)
  {
  }

  lemma ResumeOuterMarks(cfg: Config, db: Db, child: Sid, outer: Sid, now: int)
    ensures var b := ResumeOuter(cfg, db, child, outer, now).0; AllMarked(cfg, db, b) && Others(db, b, outer)
  {
    hide AllMarked, Marked;
    ResolveMarks(cfg, db, outer, now);
    RestsAreMarked(cfg, db, DeleteSession(db, child));
  }

  lemma ResumeOuterMoves(cfg: Config, env: Env, db: Db, child: Sid, outer: Sid, now: int)
    requires WellFormedConfig(cfg)
    ensures var b := ResumeOuter(cfg, db, child, outer, now).0; AllMove(cfg, env, db, b) && Others(db, b, outer)
  {
    ResumeOuterMarks(cfg, db, child, outer, now);
    MarkedMoves(cfg, env, db, ResumeOuter(cfg, db, child, outer, now).0);
  }

  /** `_advance_parent` rests, or moves the parent on from its call-step. */
  ghost predicate ParentMoved(env: Env, wf: Workflow, i: nat, data: StepData, a: Session, b: Session)
    requires i < |wf.steps| && UniqueIds(wf) && ForwardMcp(wf)
  {
    Rests(a, b) || (SameIdentity(a, b) && exists next :: MovedOn(env, wf, i, data, b, next, false))
  }

  lemma AdvanceParentMoves(env: Env, db: Db, p: Sid, wf: Workflow, i: nat, data: StepData, now: int)
    requires i < |wf.steps| && UniqueIds(wf) && ForwardMcp(wf)
    ensures var b := AdvanceParent(env, db, p, wf, i, data, now).0;
            && Others(db, b, p) && b.sessions.Keys == db.sessions.Keys
            && (p in db.sessions ==> ParentMoved(env, wf, i, data, db.sessions[p], b.sessions[p]))
  {
    var step := wf.steps[i];
    if !(step.branches != [] && step.defaultBranch.None?) {
      var next := if step.branches != [] then step.defaultBranch.value else NextInOrder(wf, i);
      var b := AdvanceParent(env, db, p, wf, i, data, now).0;
      MovementWrites(db, p, Move(env, wf, next, data, false), now);
      if p in db.sessions && !Move(env, wf, next, data, false).Blocked? {
        assert MovedOn(env, wf, i, data, b.sessions[p], next, false);
      }
    }
  }

  lemma UnlinkRests(db: Db, child: Sid, p: Sid, now: int)
    ensures AllRest(db, Unlink(db, child, p, now)) && Unlink(db, child, p, now).sessions.Keys == db.sessions.Keys - {child}
  {
  }

  lemma WithheldMoves(cfg: Config, env: Env, db: Db, child: Sid, p: Sid, artifact: string, now: int)
    requires WellFormedConfig(cfg)
    ensures var h := HandoverOf(cfg, env, db, child, p, artifact, now); h.Withheld? ==> AllMove(cfg, env, db, h.db) && Others(db, h.db, p)
  {
    ResolveMoves(cfg, env, db, p, now);
    if Resolve(cfg, db, p, now).Ready? {
      var h := HandoverOf(cfg, env, db, child, p, artifact, now);
      if h.Withheld? {
        WithheldRests(cfg, env, db, child, p, artifact, now);
        RestsAllMove(cfg, env, db, h.db, p);
      }
    }
  }

  lemma WithheldRests(cfg: Config, env: Env, db: Db, child: Sid, p: Sid, artifact: string, now: int)
    requires Resolve(cfg, db, p, now).Ready?
    ensures var h := HandoverOf(cfg, env, db, child, p, artifact, now); h.Withheld? ==> AllRest(db, h.db)
  {
    SetEscalationRests(db, p, "sub_workflow_state_drift", now);
    FailUpwardsRests(db, child, ValidationError(false), now);
  }

  lemma PropagateMoves(cfg: Config, env: Env, db: Db, child: Sid, p: Sid, childWf: Workflow, data: StepData, now: int)
    requires WellFormedConfig(cfg) && |childWf.steps| > 0
    ensures var b := Propagate(cfg, env, db, child, p, childWf, data, now).0; AllMove(cfg, env, db, b) && Others(db, b, p)
  {
    var artifact := FinalArtifact(childWf, data);
    match HandoverOf(cfg, env, db, child, p, artifact, now)
    case Withheld(_, _) => WithheldMoves(cfg, env, db, child, p, artifact, now);
    case Delivered(row, wf, i) =>
      var unlinked := Unlink(db, child, p, now);
      var data' := row.stepData[row.currentStep := artifact];
      UnlinkRests(db, child, p, now);
      assert wf.steps[i] in wf.steps;
      AdvanceParentMoves(env, unlinked, p, wf, i, data', now);
      DeliveredMoves(cfg, env, db, p, unlinked, AdvanceParent(env, unlinked, p, wf, i, data', now).0, artifact);
  }

  lemma DeliveredMoves(cfg: Config, env: Env, db: Db, p: Sid, unlinked: Db, b: Db, artifact: string)
    requires WellFormedConfig(cfg) && p in db.sessions && Live(cfg, db.sessions[p])
    requires var wf := cfg.workflows[db.sessions[p].workflowType]; var i := FindStep(wf, db.sessions[p].currentStep);
             i >= 0 && Fits(env, wf.steps[i], artifact)
    requires AllRest(db, unlinked) && Others(unlinked, b, p) && b.sessions.Keys == unlinked.sessions.Keys
    requires p in unlinked.sessions ==>
               var wf := cfg.workflows[db.sessions[p].workflowType];
               ParentMoved(env, wf, FindStep(wf, db.sessions[p].currentStep),
                           db.sessions[p].stepData[db.sessions[p].currentStep := artifact], unlinked.sessions[p], b.sessions[p])
    ensures AllMove(cfg, env, db, b) && Others(db, b, p)
  {
    forall s | s in b.sessions ensures s in db.sessions && Moves(cfg, env, db.sessions[s], b.sessions[s]) {
      if s == p && !Rests(unlinked.sessions[p], b.sessions[p]) {
        var row := db.sessions[p];
        var wf := cfg.workflows[row.workflowType];
        var next :| MovedOn(env, wf, FindStep(wf, row.currentStep), row.stepData[row.currentStep := artifact], b.sessions[p], next, false);
        RowAdvances(cfg, env, row, b.sessions[p], artifact, next, false);
      }
    }
  }

  lemma AutoResumeMoves(cfg: Config, env: Env, db: Db, child: Sid, p: Sid, childWf: Workflow, data: StepData, now: int)
    requires WellFormedConfig(cfg) && |childWf.steps| > 0
    ensures var b := AutoResume(cfg, env, db, child, p, childWf, data, now).0; AllMove(cfg, env, db, b) && Others(db, b, p)
  {
    ResumeOuterMoves(cfg, env, db, child, p, now);
    PropagateMoves(cfg, env, db, child, p, childWf, data, now);
  }

  // --- submit_step -----------------------------------------------------------------------------------

  lemma RequestedRoutes(wf: Workflow, i: nat, content: string, data: StepData, row: Session, env: Env, branch: string)
    requires i < |wf.steps|
    ensures var fired := FirstGuardrail(env, wf.guardrails, content, data, row, wf.steps[i].id);
            var r := Requested(wf, i, fired, branch);
            r.Some? ==> RoutesTo(wf, i, r.value.0, r.value.1)
  {
    GuardrailListed(env, wf.guardrails, content, data, row, wf.steps[i].id);
  }

  lemma {:induction false} GuardrailListed(env: Env, gs: seq<Guardrail>, content: string, data: StepData, row: Session, step: StepId)
    ensures var g := FirstGuardrail(env, gs, content, data, row, step); g.Some? ==> g.value in gs
  {
    if gs != [] {
      GuardrailListed(env, gs[1..], content, data, row, step);
    }
  }

  /** One session moved, then a later write moved only another one. */
  lemma TwoMoves(cfg: Config, env: Env, a: Db, b: Db, c: Db, s: Sid, p: Sid)
    requires WellFormedConfig(cfg) && s != p && a.sessions.Keys == b.sessions.Keys
    requires AllMove(cfg, env, a, b) && Others(a, b, s)
    requires AllMove(cfg, env, b, c) && Others(b, c, p)
    ensures AllMove(cfg, env, a, c)
  {
    forall o | o in c.sessions ensures o in a.sessions && Moves(cfg, env, a.sessions[o], c.sessions[o]) {
      if o == s {
        RowMoveThenRest(cfg, env, a.sessions[o], b.sessions[o], c.sessions[o]);
      } else {
        RowRestThenMove(cfg, env, a.sessions[o], b.sessions[o], c.sessions[o]);
      }
    }
  }

  lemma RowMoveThenRest(cfg: Config, env: Env, a: Session, b: Session, c: Session)
    requires WellFormedConfig(cfg) && Moves(cfg, env, a, b) && Rests(b, c)
    ensures Moves(cfg, env, a, c)
  {
    if SameIdentity(a, b) && Live(cfg, a) && LiveMove(env, cfg.workflows[a.workflowType], a, b) {
      var wf := cfg.workflows[a.workflowType];
      if exists content, next, forced :: Advances(env, wf, a, b, content, next, forced) {
        var content, next, forced :| Advances(env, wf, a, b, content, next, forced);
        RowAdvances(cfg, env, a, c, content, next, forced);
      }
    }
  }

  /** A live session at its step i, with its content stored and a route chosen. */
  lemma CommitMovementMoves(cfg: Config, env: Env, db: Db, s: Sid, i: nat, content: string, next: StepId, forced: bool, now: int)
    requires WellFormedConfig(cfg) && s in db.sessions && Live(cfg, db.sessions[s])
    requires var wf := cfg.workflows[db.sessions[s].workflowType];
             i == FindStep(wf, db.sessions[s].currentStep) && RoutesTo(wf, i, next, forced) && Fits(env, wf.steps[i], content)
    ensures var row := db.sessions[s]; var wf := cfg.workflows[row.workflowType];
            var m := Move(env, wf, next, row.stepData[row.currentStep := content], forced);
            var db1 := WriteMovement(db, s, m, now);
            AllMove(cfg, env, db, db1) && Others(db, db1, s) && db1.sessions.Keys == db.sessions.Keys
  {
    hide Move, WriteMovement, UniqueIds, BackwardRefs, TargetsExist, FieldRules, ForwardMcp, Stale;
    var row := db.sessions[s];
    var wf := cfg.workflows[row.workflowType];
    var m := Move(env, wf, next, row.stepData[row.currentStep := content], forced);
    var db1 := WriteMovement(db, s, m, now);
    MovementWrites(db, s, m, now);
    forall o | o in db1.sessions ensures o in db.sessions && Moves(cfg, env, db.sessions[o], db1.sessions[o]) {
      if o == s && !m.Blocked? {
        RowAdvances(cfg, env, row, db1.sessions[s], content, next, forced);
      }
    }
  }

  /** `row` is the snapshot the tool read; an artifact may have been stored since. */
  lemma CommitMoves(cfg: Config, env: Env, db: Db, s: Sid, row: Session, i: nat, content: string, branch: string, now: int)
    requires WellFormedConfig(cfg) && Sound(db) && s in db.sessions && Rests(row, db.sessions[s]) && Live(cfg, row)
    requires i == FindStep(cfg.workflows[row.workflowType], row.currentStep) && Fits(env, cfg.workflows[row.workflowType].steps[i], content)
    ensures AllMove(cfg, env, db, Commit(cfg, env, db, s, row, cfg.workflows[row.workflowType], i, content, branch, now).0)
  {
    hide AllMove, Sound, AutoResume, Move, WriteMovement, FailUpwards, UniqueIds, BackwardRefs, TargetsExist,
         FieldRules, ForwardMcp;
    var wf := cfg.workflows[row.workflowType];
    var data := row.stepData[row.currentStep := content];
    var fired := FirstGuardrail(env, wf.guardrails, content, data, row, row.currentStep);
    if fired.Some? && fired.value.action.Escalate? {
      EscalationMoves(cfg, env, db, s, content, fired.value.id, now);
    } else {
      RequestedRoutes(wf, i, content, data, row, env, branch);
      var requested := Requested(wf, i, fired, branch);
      if requested.Some? {
        RouteMoves(cfg, env, db, s, row, i, content, requested.value.0, requested.value.1, now);
      } else {
        AllRestMove(cfg, env, db, db);
      }
    }
  }

  lemma RouteMoves(cfg: Config, env: Env, db: Db, s: Sid, row: Session, i: nat, content: string, next: StepId, forced: bool, now: int)
    requires WellFormedConfig(cfg) && Sound(db) && s in db.sessions && Rests(row, db.sessions[s]) && Live(cfg, row)
    requires i == FindStep(cfg.workflows[row.workflowType], row.currentStep) && RoutesTo(cfg.workflows[row.workflowType], i, next, forced)
    requires Fits(env, cfg.workflows[row.workflowType].steps[i], content)
    ensures var wf := cfg.workflows[row.workflowType];
            var m := Move(env, wf, next, row.stepData[row.currentStep := content], forced);
            var db1 := WriteMovement(db, s, m, now);
            && AllMove(cfg, env, db, db1)
            && AllMove(cfg, env, db, FailUpwards(db1, s, Error(SkippedPredecessor), now).0)
            && (m.Moved? && ParentOf(db1, s).Some? ==>
                  AllMove(cfg, env, db, AutoResume(cfg, env, db1, s, ParentOf(db1, s).value, wf, m.data, now).0))
  {
    var wf := cfg.workflows[row.workflowType];
    var m := Move(env, wf, next, row.stepData[row.currentStep := content], forced);
    CommitMovementMoves(cfg, env, db, s, i, content, next, forced, now);
    MovementSameShape(db, s, m, now);
    AfterMovementMoves(cfg, env, db, WriteMovement(db, s, m, now), s, wf, m, now);
  }

  lemma AfterMovementMoves(cfg: Config, env: Env, db: Db, db1: Db, s: Sid, wf: Workflow, m: Movement, now: int)
    requires WellFormedConfig(cfg) && Sound(db) && SameShape(db, db1) && |wf.steps| > 0
    requires AllMove(cfg, env, db, db1) && Others(db, db1, s)
    ensures AllMove(cfg, env, db, FailUpwards(db1, s, Error(SkippedPredecessor), now).0)
    ensures m.Moved? && ParentOf(db1, s).Some? ==>
              AllMove(cfg, env, db, AutoResume(cfg, env, db1, s, ParentOf(db1, s).value, wf, m.data, now).0)
  {
    var failed := FailUpwards(db1, s, Error(SkippedPredecessor), now).0;
    FailUpwardsRests(db1, s, Error(SkippedPredecessor), now);
    MoveThenRest(cfg, env, db, db1, failed);
    if m.Moved? && ParentOf(db1, s).Some? {
      var p := ParentOf(db1, s).value;
      NeighboursUnique(db, s);
      AutoResumeMoves(cfg, env, db1, s, p, wf, m.data, now);
      TwoMoves(cfg, env, db, db1, AutoResume(cfg, env, db1, s, p, wf, m.data, now).0, s, p);
    }
  }

  lemma EscalatedWrites(db: Db, s: Sid, reason: string, data: StepData, now: int)
    requires s in db.sessions
    ensures var b := SetData(SetEscalation(db, s, reason, now), s, data, now);
            && b.sessions.Keys == db.sessions.Keys && Others(db, b, s) && SameIdentity(db.sessions[s], b.sessions[s])
            && b.sessions[s].currentStep == db.sessions[s].currentStep && b.sessions[s].stepData == data
  {
  }

  lemma EscalationMoves(cfg: Config, env: Env, db: Db, s: Sid, content: string, reason: string, now: int)
    requires WellFormedConfig(cfg) && s in db.sessions && Live(cfg, db.sessions[s])
    requires var wf := cfg.workflows[db.sessions[s].workflowType]; var i := FindStep(wf, db.sessions[s].currentStep);
             i >= 0 && Fits(env, wf.steps[i], content)
    ensures var row := db.sessions[s];
            AllMove(cfg, env, db, FailUpwards(SetData(SetEscalation(db, s, reason, now), s, row.stepData[row.currentStep := content], now),
                                              s, Error(SessionEscalated), now).0)
  {
    var row := db.sessions[s];
    var data := row.stepData[row.currentStep := content];
    var db1 := SetData(SetEscalation(db, s, reason, now), s, data, now);
    EscalatedWrites(db, s, reason, data, now);
    RowStores(cfg, env, row, db1.sessions[s]);
    OneRowMoves(cfg, env, db, db1, s);
    FailUpwardsRests(db1, s, Error(SessionEscalated), now);
    MoveThenRest(cfg, env, db, db1, FailUpwards(db1, s, Error(SessionEscalated), now).0);
  }

  lemma MoveThenRest(cfg: Config, env: Env, a: Db, b: Db, c: Db)
    requires WellFormedConfig(cfg) && AllMove(cfg, env, a, b) && a.sessions.Keys == b.sessions.Keys && AllRest(b, c)
    ensures AllMove(cfg, env, a, c)
  {
    forall o | o in c.sessions ensures o in a.sessions && Moves(cfg, env, a.sessions[o], c.sessions[o]) {
      RowMoveThenRest(cfg, env, a.sessions[o], b.sessions[o], c.sessions[o]);
    }
  }
}
