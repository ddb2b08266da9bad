/** What accepted content asks for and gets: an escalation, a forced branch, the chosen or default
    branch, or the next step; and when each kind of guardrail lets it through. */
module Submissions {
  import opened Options
  import opened Workflows
  import opened References
  import Stepping
  import opened InlineExecution
  import opened Tables
  import opened ToolSpecs
  import opened Guardrails
  import opened StackSafety
  import opened Soundness
  import opened SessionMoves
  import opened ToolMoves
  import opened Handovers
  import opened Visits

  // --- What is asked for ------------------------------------------------------------------------------

  /** The first guardrail that is due on this content has this action. */
  ghost predicate DueAction(env: Env, row: Session, wf: Workflow, step: StepId, content: string, action: GuardAction) {
    exists k :: FirstDue(env, wf.guardrails, content, row.stepData[step := content], row, step, k) && wf.guardrails[k].action == action
  }

  ghost predicate Escalates(env: Env, row: Session, wf: Workflow, step: StepId, content: string) {
    DueAction(env, row, wf, step, content, Escalate)
  }

  ghost predicate Forces(env: Env, row: Session, wf: Workflow, step: StepId, content: string) {
    exists target :: DueAction(env, row, wf, step, content, ForceBranch(target))
  }

  /** At a step with branches: the branch the client named, or the default if it named none. */
  ghost predicate Chosen(step: Step, branch: string, next: StepId) {
    next in step.branches && if branch != "" then next == branch else next == (if step.defaultBranch.Some? then step.defaultBranch.value else "")
  }

  /** The pointer content at step i asks for, and whether a guardrail forces it. */
  ghost predicate AsksFor(env: Env, row: Session, wf: Workflow, i: nat, content: string, branch: string, next: StepId, forced: bool)
    requires i < |wf.steps|
  {
    var step := wf.steps[i];
    && !Escalates(env, row, wf, step.id, content)
    && (forced <==> Forces(env, row, wf, step.id, content))
    && if forced then DueAction(env, row, wf, step.id, content, ForceBranch(next))
       else if step.branches != [] then Chosen(step, branch, next)
       else next == IdAt(wf, i + 1)
  }

  lemma OneFirstDue(env: Env, gs: seq<Guardrail>, content: string, data: StepData, row: Session, step: StepId, k: int, m: int)
    requires FirstDue(env, gs, content, data, row, step, k) && FirstDue(env, gs, content, data, row, step, m)
    ensures k == m
  {
    hide Due;
  }

  lemma ActionOfFirst(env: Env, row: Session, wf: Workflow, step: StepId, content: string, action: GuardAction)
    ensures var fired := FirstGuardrail(env, wf.guardrails, content, row.stepData[step := content], row, step);
            DueAction(env, row, wf, step, content, action) <==> fired.Some? && fired.value.action == action
  {
    hide NoneDue, Due;
    var gs, data := wf.guardrails, row.stepData[step := content];
    FirstGuardrailMeans(env, gs, content, data, row, step);
    match FirstGuardrail(env, gs, content, data, row, step)
    case None => NothingFirst(env, gs, content, data, row, step);
    case Some(g) =>
      var k :| FirstDue(env, gs, content, data, row, step, k) && gs[k] == g;
      forall m | FirstDue(env, gs, content, data, row, step, m) ensures m == k {
        OneFirstDue(env, gs, content, data, row, step, k, m);
      }
  }

  lemma NothingFirst(env: Env, gs: seq<Guardrail>, content: string, data: StepData, row: Session, step: StepId)
    requires NoneDue(env, gs, content, data, row, step)
    ensures forall k :: !FirstDue(env, gs, content, data, row, step, k)
  {
    hide Due;
  }

  /** Content moves its session exactly as the pointer it asks for leads; it moves nothing exactly
      when a guardrail escalates or the branch is not one of the step's. */
  lemma OwnMoveMeans(env: Env, row: Session, wf: Workflow, i: nat, content: string, branch: string, next: StepId, forced: bool)
    requires i < |wf.steps| && UniqueIds(wf) && ForwardMcp(wf)
    ensures AsksFor(env, row, wf, i, content, branch, next, forced) ==>
              OwnMove(env, row, wf, i, content, branch) == Some(Move(env, wf, next, row.stepData[wf.steps[i].id := content], forced))
    ensures OwnMove(env, row, wf, i, content, branch).Some? ==> exists n, f :: AsksFor(env, row, wf, i, content, branch, n, f)
  {
    hide DueAction, Move, FirstGuardrail, UniqueIds, ForwardMcp;
    var step := wf.steps[i];
    var fired := FirstGuardrail(env, wf.guardrails, content, row.stepData[step.id := content], row, step.id);
    forall action ensures DueAction(env, row, wf, step.id, content, action) <==> fired.Some? && fired.value.action == action {
      ActionOfFirst(env, row, wf, step.id, content, action);
    }
    if OwnMove(env, row, wf, i, content, branch).Some? {
      var (n, f) := Requested(wf, i, fired, branch).value;
      assert AsksFor(env, row, wf, i, content, branch, n, f);
    }
  }

  /** Where the engine takes a session that is sent to a pointer: a forced one skips nothing; otherwise
      the skip loop leads on, or blocks the move when it raises; and then the in-line run. */
  lemma MoveMeans(env: Env, wf: Workflow, next: StepId, data: StepData, forced: bool) returns (s: Stepping.SkipResult)
    requires UniqueIds(wf) && ForwardMcp(wf)
    ensures if forced then s == Stepping.At(next) else LeadsTo(env, wf, data, next, s)
    ensures Move(env, wf, next, data, forced) ==
            if s.Raised? then Blocked
            else
              var r := AutoRun(env, wf, s.id, data, []);
              if r.cascaded then Halted(r.at, r.data, r.executed) else Moved(r.at, r.data, r.executed)
  {
    hide AutoRun, LeadsTo, UniqueIds, ForwardMcp;
    s := Stepping.ApplySkips(env, wf, data, next, forced);
    SkipsLead(env, wf, data, next);
  }

  /** A forced pointer to a client step, or an unforced one to a client step without precondition, is
      where the session then stands, with nothing stored besides. */
  lemma StandsWhereSent(env: Env, wf: Workflow, i: nat, data: StepData, forced: bool)
    requires UniqueIds(wf) && ForwardMcp(wf) && i < |wf.steps| && wf.steps[i].action.Llm? && (forced || wf.steps[i].precondition.None?)
    ensures Move(env, wf, wf.steps[i].id, data, forced) == Moved(wf.steps[i].id, data, [])
  {
    PositionOfIdAt(wf, i);
  }

  // --- What it gets -------------------------------------------------------------------------------------

  /** A submission that passes every guard and every check of its step. */
  ghost predicate Accepted(cfg: Config, env: Env, db: Db, s: Sid, stepId: StepId, content: string, artifact: string)
    requires WellFormedConfig(cfg)
  {
    && stepId != "" && s in db.sessions && Live(cfg, db.sessions[s]) && TopFrame(db, s) == None && env.bytes(content) <= 262144
    && var row, wf := db.sessions[s], cfg.workflows[db.sessions[s].workflowType];
       var i := FindStep(wf, stepId);
       && row.escalation.None? && row.currentStep == stepId
       && i >= 0 && wf.steps[i].call.None? && Accepts(env, wf.steps[i], content, artifact)
  }

  lemma AcceptedIsCommit(cfg: Config, env: Env, db: Db, s: Sid, stepId: StepId, content: string, branch: string, artifact: string, now: int)
    requires WellFormedConfig(cfg) && Accepted(cfg, env, db, s, stepId, content, artifact)
    ensures var row, wf := db.sessions[s], cfg.workflows[db.sessions[s].workflowType];
            var i := FindStep(wf, stepId);
            SubmitStep(cfg, env, db, s, stepId, content, branch, artifact, now)
            == Commit(cfg, env, CommitBase(db, s, wf.steps[i], artifact, content, now), s, row, wf, i, content, branch, now)
  {
    hide Commit, FailUpwards, StoreArtifact, IncRetry, TopFrame, BackwardRefs, TargetsExist, FieldRules, ForwardMcp;
  }

  /** The session moved as asked: nothing of its row changed but position, data, visits and times; every
      step executed on the way counts as a visit, and so does the step it ends at. */
  ghost predicate Carried(a: Session, b: Session, m: Movement, now: int) {
    if m.Blocked? then b == a
    else
      && b == a.(currentStep := m.at, stepData := m.data, visits := b.visits, updatedAt := now,
                 completedAt := if m.at == "__complete__" then Some(now) else a.completedAt)
      && forall step :: Visited(b, step) == Visited(a, step) + multiset(m.executed)[step]
                                            + (if m.Moved? && m.at == step && m.at != "__complete__" then 1 else 0)
  }

  function Visited(row: Session, step: StepId): nat {
    if step in row.visits then row.visits[step] else 0
  }

  lemma {:induction false} IncVisitsRow(db: Db, s: Sid, steps: seq<StepId>, now: int)
    requires s in db.sessions
    ensures var b := IncVisits(db, s, steps, now);
            s in b.sessions && b.sessions[s] == db.sessions[s].(visits := b.sessions[s].visits,
                                                                updatedAt := if steps == [] then db.sessions[s].updatedAt else now)
  {
    if steps != [] {
      IncVisitsRow(db, s, steps[..|steps| - 1], now);
    }
  }

  lemma MovementCarried(db: Db, s: Sid, m: Movement, now: int)
    requires s in db.sessions
    ensures var b := WriteMovement(db, s, m, now); OnlyRow(db, b, s) && s in b.sessions && Carried(db.sessions[s], b.sessions[s], m, now)
  {
    hide IncVisits, OnlyRow;
    MovementOnlyRow(db, s, m, now);
    if !m.Blocked? {
      IncVisitsRow(db, s, m.executed, now);
      var b := WriteMovement(db, s, m, now).sessions[s];
      forall step ensures Visited(b, step) == Visited(db.sessions[s], step) + multiset(m.executed)[step]
                                              + (if m.Moved? && m.at == step && m.at != COMPLETE then 1 else 0) {
        MovementVisits(db, s, m, step, now);
      }
    }
  }

  /** A hand-over writes the row of the session below only. */
  ghost predicate RowsKept(a: Db, b: Db, p: Sid) {
    forall o :: o in b.sessions && o != p ==> o in a.sessions && b.sessions[o] == a.sessions[o]
  }

  lemma AdvanceRows(env: Env, db: Db, p: Sid, wf: Workflow, i: nat, data: StepData, now: int)
    requires i < |wf.steps| && UniqueIds(wf) && ForwardMcp(wf)
    ensures RowsKept(db, AdvanceParent(env, db, p, wf, i, data, now).0, p)
  {
    hide Move, WriteMovement, UniqueIds, ForwardMcp;
    var step := wf.steps[i];
    if !(step.branches != [] && step.defaultBranch.None?) {
      var next := if step.branches != [] then step.defaultBranch.value else Stepping.NextInOrder(wf, i);
      MovementOnlyRow(db, p, Move(env, wf, next, data, false), now);
    }
  }

  lemma FailRows(db: Db, s: Sid, reply: Reply, now: int)
    ensures var (b, r) := FailUpwards(db, s, reply, now);
            b.sessions.Keys == db.sessions.Keys && (r == reply || r.Error?)
            && forall o :: o in b.sessions && Some(o) != ParentOf(db, s) ==> b.sessions[o] == db.sessions[o]
  {
    hide ParentOf;
  }

  lemma UnlinkRows(db: Db, c: Sid, p: Sid, now: int)
    ensures RowsKept(db, Unlink(db, c, p, now), p) && RowsKept(db, DeleteSession(db, c), p)
  {
  }

  lemma SetRows(db: Db, p: Sid, reason: string, now: int)
    ensures RowsKept(db, SetEscalation(db, p, reason, now), p) && RowsKept(db, SetStep(db, p, WORKFLOW_CHANGED, now), p)
  {
  }

  lemma ResumeOuterRows(cfg: Config, db: Db, c: Sid, outer: Sid, now: int)
    ensures RowsKept(db, ResumeOuter(cfg, db, c, outer, now).0, outer)
  {
    hide DeleteSession, SetStep, Stale;
    UnlinkRows(db, c, outer, now);
    SetRows(db, outer, "", now);
  }

  lemma WithheldRows(cfg: Config, env: Env, db: Db, c: Sid, p: Sid, artifact: string, now: int)
    requires ParentOf(db, c) == Some(p)
    ensures var h := HandoverOf(cfg, env, db, c, p, artifact, now); h.Withheld? ==> RowsKept(db, h.db, p)
  {
    hide FailUpwards, ParentOf, SetStep, SetEscalation, Stale;
    FailRows(db, c, ValidationError(false), now);
    SetRows(db, p, "sub_workflow_state_drift", now);
  }

  lemma ResumeRows(cfg: Config, env: Env, db: Db, c: Sid, p: Sid, wf: Workflow, data: StepData, now: int)
    requires WellFormedConfig(cfg) && |wf.steps| > 0 && ParentOf(db, c) == Some(p)
    ensures RowsKept(db, AutoResume(cfg, env, db, c, p, wf, data, now).0, p)
  {
    hide AdvanceParent, FinalArtifact, ParentOf, HandoverOf, Unlink, ResumeOuter, UniqueIds, BackwardRefs, TargetsExist, FieldRules, ForwardMcp;
    ResumeOuterRows(cfg, db, c, p, now);
    WithheldRows(cfg, env, db, c, p, FinalArtifact(wf, data), now);
    UnlinkRows(db, c, p, now);
    var h := HandoverOf(cfg, env, db, c, p, FinalArtifact(wf, data), now);
    if h.Delivered? {
      AdvanceRows(env, Unlink(db, c, p, now), p, h.wf, h.i, h.row.stepData[h.row.currentStep := FinalArtifact(wf, data)], now);
    }
  }

  /** The definition the step has for an artifact: the first with its id. */
  ghost predicate Defines(step: Step, artifact: string, d: Artifact) {
    exists k :: 0 <= k < |step.artifacts| && step.artifacts[k] == d && d.id == artifact && forall j :: 0 <= j < k ==> step.artifacts[j].id != artifact
  }

  /** The row once content is accepted as an artifact: kept beside the others if its definition asks for it. */
  ghost function WithArtifact(row: Session, step: Step, artifact: string, content: string, now: int): Session {
    if exists d :: Defines(step, artifact, d) && d.checkpoint then
      var others := if step.id in row.checkpoints then row.checkpoints[step.id] else map[];
      row.(checkpoints := row.checkpoints[step.id := others[artifact := content]], updatedAt := now)
    else row
  }

  /** What becomes of the submitting session and what it is told, once its content is accepted: a is
      its row, the artifact kept. */
  ghost predicate Submitted(env: Env, wf: Workflow, a: Session, b: Db, s: Sid, framed: bool, i: nat, content: string, branch: string,
                            reply: Reply, now: int)
    requires i < |wf.steps| && UniqueIds(wf) && ForwardMcp(wf)
  {
    var id := wf.steps[i].id;
    if Escalates(env, a, wf, id, content) then
      && s in b.sessions && reply.Error?
      && exists k :: FirstDue(env, wf.guardrails, content, a.stepData[id := content], a, id, k)
                     && b.sessions[s] == a.(escalation := Some(wf.guardrails[k].id), stepData := a.stepData[id := content], updatedAt := now)
    else
      match OwnMove(env, a, wf, i, content, branch)
      case None => reply == Error(InvalidArgument) && s in b.sessions && b.sessions[s] == a
      case Some(m) =>
        && (s in b.sessions ==> Carried(a, b.sessions[s], m, now))
        && (s !in b.sessions ==> m.Moved? && m.at == COMPLETE && framed)
        && (!m.Moved? ==> reply.Error?)
        && (m.Moved? && (m.at != COMPLETE || !framed) ==> reply == AdvanceReply(s, wf, m.at, false))
  }

  lemma EscalatedRow(db: Db, s: Sid, reason: string, data: StepData, now: int)
    requires s in db.sessions
    ensures var (b, reply) := FailUpwards(SetData(SetEscalation(db, s, reason, now), s, data, now), s, Error(SessionEscalated), now);
            && s in b.sessions && reply.Error?
            && (ParentOf(db, s) != Some(s) ==> b.sessions[s] == db.sessions[s].(escalation := Some(reason), stepData := data, updatedAt := now))
  {
    hide ParentOf, FailUpwards;
    var db0 := SetEscalation(db, s, reason, now);
    var db1 := SetData(db0, s, data, now);
    SetEscalationSameShape(db, s, reason, now);
    SetDataSameShape(db0, s, data, now);
    SameParentAfter(db, db0, s);
    SameParentAfter(db0, db1, s);
    FailRows(db1, s, Error(SessionEscalated), now);
  }

  lemma SameParentAfter(a: Db, b: Db, s: Sid)
    requires SameShape(a, b)
    ensures ParentOf(b, s) == ParentOf(a, s)
  {
  }

  lemma CommitSubmits(cfg: Config, env: Env, db: Db, s: Sid, i: nat, content: string, branch: string, now: int)
    requires WellFormedConfig(cfg) && Sound(db) && s in db.sessions && db.sessions[s].workflowType in cfg.workflows
    requires i < |cfg.workflows[db.sessions[s].workflowType].steps|
    ensures var row, wf := db.sessions[s], cfg.workflows[db.sessions[s].workflowType];
            var (b, reply) := Commit(cfg, env, db, s, row, wf, i, content, branch, now);
            Submitted(env, wf, row, b, s, ParentOf(db, s).Some?, i, content, branch, reply, now)
  {
    hide Move, WriteMovement, AutoResume, FailUpwards, SetEscalation, SetData, ParentOf, Sound, FirstDue, Requested, AdvanceReply, OnlyRow, Carried;
    hide UniqueIds, BackwardRefs, TargetsExist, FieldRules, ForwardMcp;
    var row, wf := db.sessions[s], cfg.workflows[db.sessions[s].workflowType];
    var id := wf.steps[i].id;
    var data := row.stepData[id := content];
    var fired := FirstGuardrail(env, wf.guardrails, content, data, row, id);
    FirstGuardrailMeans(env, wf.guardrails, content, data, row, id);
    ActionOfFirst(env, row, wf, id, content, Escalate);
    NeighboursUnique(db, s);
    if Escalates(env, row, wf, id, content) {
      EscalatedRow(db, s, fired.value.id, data, now);
    } else {
      var m := OwnMove(env, row, wf, i, content, branch);
      if m.Some? {
        MovementCarried(db, s, m.value, now);
        var db1 := WriteMovement(db, s, m.value, now);
        OnlyRowParent(db, db1, s);
        FailRows(db1, s, Error(SkippedPredecessor), now);
        if ParentOf(db1, s).Some? && m.value.Moved? {
          ResumeRows(cfg, env, db1, s, ParentOf(db1, s).value, wf, m.value.data, now);
        }
      }
    }
  }

  /** A commit reads only the data and the visits of the row it is given. */
  lemma CommitReads(cfg: Config, env: Env, db: Db, s: Sid, row: Session, other: Session, wf: Workflow, i: nat, content: string, branch: string, now: int)
    requires WellFormedConfig(cfg) && WellFormedWorkflow(wf) && i < |wf.steps| && row.stepData == other.stepData && row.visits == other.visits
    ensures Commit(cfg, env, db, s, row, wf, i, content, branch, now) == Commit(cfg, env, db, s, other, wf, i, content, branch, now)
  {
    hide Move, WriteMovement, AutoResume, FailUpwards, Requested, UniqueIds, BackwardRefs, TargetsExist, FieldRules, ForwardMcp;
    SameGuardrail(env, wf.guardrails, content, row.stepData[wf.steps[i].id := content], row, other, wf.steps[i].id);
  }

  lemma {:induction false} SameGuardrail(env: Env, gs: seq<Guardrail>, content: string, data: StepData, row: Session, other: Session, step: StepId)
    requires row.visits == other.visits
    ensures FirstGuardrail(env, gs, content, data, row, step) == FirstGuardrail(env, gs, content, data, other, step)
  {
    if gs != [] {
      SameGuardrail(env, gs[1..], content, data, row, other, step);
    }
  }

  lemma {:induction false} FoundIsDefined(step: Step, artifacts: seq<Artifact>, n: nat, artifact: string)
    requires n <= |step.artifacts| && artifacts == step.artifacts[n..] && forall j :: 0 <= j < n ==> step.artifacts[j].id != artifact
    ensures var def := FindArtifact(artifacts, artifact);
            if def.Some? then Defines(step, artifact, def.value) && forall d :: Defines(step, artifact, d) ==> d == def.value
            else forall d :: !Defines(step, artifact, d)
    decreases |artifacts|
  {
    if artifacts != [] {
      assert artifacts[0] == step.artifacts[n];
      if artifacts[0].id != artifact {
        FoundIsDefined(step, artifacts[1..], n + 1, artifact);
      }
    }
  }

  /** The tables a commit works on hold the row with the artifact kept. */
  lemma BaseRow(db: Db, s: Sid, step: Step, artifact: string, content: string, now: int)
    requires s in db.sessions
    ensures var base := CommitBase(db, s, step, artifact, content, now);
            OnlyRow(db, base, s) && s in base.sessions && base.sessions[s] == WithArtifact(db.sessions[s], step, artifact, content, now)
  {
    hide FindArtifact, Defines;
    FoundIsDefined(step, step.artifacts, 0, artifact);
  }

  /** Accepted content: when the first guardrail due escalates, the session is escalated with the
      guardrail's id where it stands, its content stored; otherwise it stays free of escalation and
      goes exactly where the pointer it asks for leads, or is refused with nothing moved for a branch
      that is not one of the step's; it leaves the tables only by completing under another session.
      Nothing else of its row changes but visits and times. */
  lemma SubmissionGets(cfg: Config, env: Env, db: Db, s: Sid, stepId: StepId, content: string, branch: string, artifact: string, now: int)
    requires WellFormedConfig(cfg) && Sound(db) && Accepted(cfg, env, db, s, stepId, content, artifact)
    ensures var (b, reply) := SubmitStep(cfg, env, db, s, stepId, content, branch, artifact, now);
            var row, wf := db.sessions[s], cfg.workflows[db.sessions[s].workflowType];
            var i := FindStep(wf, stepId);
            Submitted(env, wf, WithArtifact(row, wf.steps[i], artifact, content, now), b, s, ParentOf(db, s).Some?, i, content, branch, reply, now)
  {
    hide SubmitStep, Commit, CommitBase, Submitted, Sound, OnlyRow, TopFrame, Stale, Accepts, Defines, UniqueIds, BackwardRefs, TargetsExist,
         FieldRules, ForwardMcp;
    var row, wf := db.sessions[s], cfg.workflows[db.sessions[s].workflowType];
    var i := FindStep(wf, stepId);
    var base := CommitBase(db, s, wf.steps[i], artifact, content, now);
    AcceptedIsCommit(cfg, env, db, s, stepId, content, branch, artifact, now);
    BaseRow(db, s, wf.steps[i], artifact, content, now);
    OnlyRowKeeps(db, base, s);
    OnlyRowParent(db, base, s);
    CommitReads(cfg, env, base, s, row, base.sessions[s], wf, i, content, branch, now);
    CommitSubmits(cfg, env, base, s, i, content, branch, now);
  }

  lemma AcceptedIsThere(cfg: Config, env: Env, db: Db, s: Sid, stepId: StepId, content: string, artifact: string)
    requires WellFormedConfig(cfg) && Accepted(cfg, env, db, s, stepId, content, artifact)
    ensures s in db.sessions && db.sessions[s].workflowType in cfg.workflows
  {
  }

  /** Accepted content that goes nowhere: a guardrail escalates, or the movement it asks for raises. */
  ghost predicate Fails(env: Env, row: Session, wf: Workflow, i: nat, content: string, branch: string)
    requires i < |wf.steps| && UniqueIds(wf) && ForwardMcp(wf)
  {
    var m := OwnMove(env, row, wf, i, content, branch);
    Escalates(env, row, wf, wf.steps[i].id, content) || (m.Some? && !m.value.Moved?)
  }

  lemma CommitFails(cfg: Config, env: Env, db: Db, s: Sid, p: Sid, row: Session, wf: Workflow, i: nat, content: string, branch: string, now: int)
    requires WellFormedConfig(cfg) && WellFormedWorkflow(wf) && i < |wf.steps| && s in db.sessions && p in db.sessions && s != p
    requires ParentOf(db, s) == Some(p) && Fails(env, row, wf, i, content, branch)
    ensures var (b, reply) := Commit(cfg, env, db, s, row, wf, i, content, branch, now);
            && reply == Error(SessionEscalated) && p in b.sessions
            && b.sessions[p] == db.sessions[p].(escalation := Some("called_workflow_failed"), updatedAt := now)
  {
    hide Move, WriteMovement, AutoResume, ParentOf, Requested, OnlyRow, FirstGuardrail, DueAction;
    hide UniqueIds, BackwardRefs, TargetsExist, FieldRules, ForwardMcp;
    ActionOfFirst(env, row, wf, wf.steps[i].id, content, Escalate);
    if Escalates(env, row, wf, wf.steps[i].id, content) {
      var fired := FirstGuardrail(env, wf.guardrails, content, row.stepData[wf.steps[i].id := content], row, wf.steps[i].id);
      var db1 := SetData(SetEscalation(db, s, fired.value.id, now), s, row.stepData[wf.steps[i].id := content], now);
      EscalatedOnlyRow(db, s, fired.value.id, row.stepData[wf.steps[i].id := content], now);
      OnlyRowParent(db, db1, s);
      OnlyRowOther(db, db1, s, p);
    } else {
      var m := OwnMove(env, row, wf, i, content, branch).value;
      MovementOnlyRow(db, s, m, now);
      OnlyRowParent(db, WriteMovement(db, s, m, now), s);
      OnlyRowOther(db, WriteMovement(db, s, m, now), s, p);
    }
  }

  lemma EscalatedOnlyRow(db: Db, s: Sid, reason: string, data: StepData, now: int)
    ensures OnlyRow(db, SetData(SetEscalation(db, s, reason, now), s, data, now), s)
  {
  }

  lemma OnlyRowOther(a: Db, b: Db, s: Sid, o: Sid)
    requires OnlyRow(a, b, s) && o != s && o in a.sessions
    ensures o in b.sessions && b.sessions[o] == a.sessions[o]
  {
  }

  /** ... is answered as an escalation of the session below, which is escalated and nothing else. */
  lemma FailureGoesUp(cfg: Config, env: Env, db: Db, s: Sid, p: Sid, stepId: StepId, content: string, branch: string, artifact: string, now: int)
    requires WellFormedConfig(cfg) && Sound(db) && Accepted(cfg, env, db, s, stepId, content, artifact)
    requires ParentOf(db, s) == Some(p) && p in db.sessions
    requires var wf := cfg.workflows[db.sessions[s].workflowType]; Fails(env, db.sessions[s], wf, FindStep(wf, stepId), content, branch)
    ensures var (b, reply) := SubmitStep(cfg, env, db, s, stepId, content, branch, artifact, now);
            && reply == Error(SessionEscalated) && p in b.sessions
            && b.sessions[p] == db.sessions[p].(escalation := Some("called_workflow_failed"), updatedAt := now)
  {
    hide SubmitStep, Commit, CommitBase, Fails, Sound, OnlyRow, TopFrame, ParentOf, Stale, Accepts, WithArtifact, UniqueIds, BackwardRefs,
         TargetsExist, FieldRules, ForwardMcp;
    var row, wf := db.sessions[s], cfg.workflows[db.sessions[s].workflowType];
    var i := FindStep(wf, stepId);
    var base := CommitBase(db, s, wf.steps[i], artifact, content, now);
    AcceptedIsCommit(cfg, env, db, s, stepId, content, branch, artifact, now);
    BaseRow(db, s, wf.steps[i], artifact, content, now);
    NeighboursUnique(db, s);
    OnlyRowParent(db, base, s);
    OnlyRowOther(db, base, s, p);
    CommitFails(cfg, env, base, s, p, row, wf, i, content, branch, now);
  }

  // --- Each kind of guardrail -----------------------------------------------------------------------------

  /** With one guardrail, which escalates, accepted content escalates its session exactly when
      that guardrail is due. */
  lemma OneGuardrail(cfg: Config, env: Env, db: Db, s: Sid, stepId: StepId, content: string, branch: string, artifact: string, now: int, g: Guardrail)
    requires WellFormedConfig(cfg) && Sound(db) && Accepted(cfg, env, db, s, stepId, content, artifact)
    requires cfg.workflows[db.sessions[s].workflowType].guardrails == [g] && g.action == Escalate
    ensures var b := SubmitStep(cfg, env, db, s, stepId, content, branch, artifact, now).0;
            var row := db.sessions[s];
            (s in b.sessions && b.sessions[s].escalation.Some?) <==> Due(env, g.trigger, content, row.stepData[stepId := content], row, stepId)
  {
    hide SubmitStep, Due, OwnMove, Move, Sound, Defines, TopFrame, Stale, Accepts, UniqueIds, BackwardRefs, TargetsExist, FieldRules, ForwardMcp;
    SubmissionGets(cfg, env, db, s, stepId, content, branch, artifact, now);
    var wf := cfg.workflows[db.sessions[s].workflowType];
    var row := WithArtifact(db.sessions[s], wf.steps[FindStep(wf, stepId)], artifact, content, now);
    SameDue(env, g.trigger, content, row.stepData[stepId := content], row, db.sessions[s], stepId);
    if Due(env, g.trigger, content, row.stepData[stepId := content], row, stepId) {
      assert FirstDue(env, wf.guardrails, content, row.stepData[stepId := content], row, stepId, 0);
    }
  }

  lemma SameDue(env: Env, t: Trigger, content: string, data: StepData, row: Session, other: Session, step: StepId)
    requires row.visits == other.visits
    ensures Due(env, t, content, data, row, step) <==> Due(env, t, content, data, other, step)
  {
  }

  /** An output_length guardrail that escalates: exactly the content with more characters does. */
  lemma OutputLengthEscalates(cfg: Config, env: Env, db: Db, s: Sid, stepId: StepId, content: string, branch: string, artifact: string, now: int,
                              id: string, maxChars: nat)
    requires WellFormedConfig(cfg) && Sound(db) && Accepted(cfg, env, db, s, stepId, content, artifact)
    requires cfg.workflows[db.sessions[s].workflowType].guardrails == [Guardrail(id, OutputLength(maxChars), Escalate)]
    ensures var b := SubmitStep(cfg, env, db, s, stepId, content, branch, artifact, now).0;
            (s in b.sessions && b.sessions[s].escalation.Some?) <==> |content| > maxChars
  {
    hide SubmitStep, Accepted, Sound, WellFormedWorkflow;
    OneGuardrail(cfg, env, db, s, stepId, content, branch, artifact, now, Guardrail(id, OutputLength(maxChars), Escalate));
  }

  /** A keyword_match guardrail: exactly the content that some pattern matches. */
  lemma KeywordEscalates(cfg: Config, env: Env, db: Db, s: Sid, stepId: StepId, content: string, branch: string, artifact: string, now: int,
                         id: string, patterns: seq<string>)
    requires WellFormedConfig(cfg) && Sound(db) && Accepted(cfg, env, db, s, stepId, content, artifact)
    requires cfg.workflows[db.sessions[s].workflowType].guardrails == [Guardrail(id, KeywordMatch(patterns), Escalate)]
    ensures var b := SubmitStep(cfg, env, db, s, stepId, content, branch, artifact, now).0;
            (s in b.sessions && b.sessions[s].escalation.Some?) <==> exists p :: p in patterns && env.matches(p, content)
  {
    hide SubmitStep, Accepted, Sound, WellFormedWorkflow;
    OneGuardrail(cfg, env, db, s, stepId, content, branch, artifact, now, Guardrail(id, KeywordMatch(patterns), Escalate));
  }

  /** A step_count guardrail: exactly when so many steps are stored, the submitted one counted. */
  lemma StepCountEscalates(cfg: Config, env: Env, db: Db, s: Sid, stepId: StepId, content: string, branch: string, artifact: string, now: int,
                           id: string, max: nat)
    requires WellFormedConfig(cfg) && Sound(db) && Accepted(cfg, env, db, s, stepId, content, artifact)
    requires cfg.workflows[db.sessions[s].workflowType].guardrails == [Guardrail(id, StepCount(max), Escalate)]
    ensures var b := SubmitStep(cfg, env, db, s, stepId, content, branch, artifact, now).0;
            (s in b.sessions && b.sessions[s].escalation.Some?) <==> |db.sessions[s].stepData.Keys + {stepId}| >= max
  {
    hide SubmitStep, Accepted, Sound, WellFormedWorkflow;
    OneGuardrail(cfg, env, db, s, stepId, content, branch, artifact, now, Guardrail(id, StepCount(max), Escalate));
    AcceptedIsThere(cfg, env, db, s, stepId, content, artifact);
    assert db.sessions[s].stepData[stepId := content].Keys == db.sessions[s].stepData.Keys + {stepId};
  }

  /** A step_revisit guardrail, on tables some run from empty ones left: exactly when the calls of
      that run brought the pointer of the session to the step so many times. */
  lemma RevisitEscalates(cfg: Config, env: Env, ticks: seq<Tick>, s: Sid, stepId: StepId, content: string, branch: string, artifact: string,
                         now: int, id: string, maxVisits: nat)
    requires WellFormedConfig(cfg) && Loaded(ticks) && forall t :: t in ticks ==> t.event.cfg.workflows == cfg.workflows
    requires Accepted(cfg, env, AfterAll(Db(map[], map[], 0), ticks), s, stepId, content, artifact)
    requires ClientStep(cfg.workflows, AfterAll(Db(map[], map[], 0), ticks).sessions[s], stepId)
    requires cfg.workflows[AfterAll(Db(map[], map[], 0), ticks).sessions[s].workflowType].guardrails == [Guardrail(id, StepRevisit(maxVisits), Escalate)]
    ensures var b := SubmitStep(cfg, env, AfterAll(Db(map[], map[], 0), ticks), s, stepId, content, branch, artifact, now).0;
            (s in b.sessions && b.sessions[s].escalation.Some?) <==> Arrivals(Db(map[], map[], 0), ticks, s, stepId) >= maxVisits
  {
    hide SubmitStep, Accepted, WellFormedWorkflow, ClientStep, AfterTick, Arrives, SoundFrames;
    var empty := Db(map[], map[], 0);
    EmptyIsSound();
    RunsSound(empty, ticks);
    AcceptedIsThere(cfg, env, AfterAll(empty, ticks), s, stepId, content, artifact);
    VisitsAreArrivals(cfg.workflows, empty, ticks, s, stepId);
    OneGuardrail(cfg, env, AfterAll(empty, ticks), s, stepId, content, branch, artifact, now, Guardrail(id, StepRevisit(maxVisits), Escalate));
  }

  lemma EmptyIsSound()
    ensures Sound(Db(map[], map[], 0))
  {
  }
}
