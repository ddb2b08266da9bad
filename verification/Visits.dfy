/** What the visit counters count, over whole runs: how often the pointer of a session came to a
    step. A step_revisit guardrail is therefore due exactly when it came often enough. */
module Visits {
  import opened Options
  import opened Workflows
  import opened References
  import Stepping
  import opened InlineExecution
  import opened Tables
  import opened ToolSpecs
  import opened StackSafety
  import opened Soundness
  import opened SessionMoves
  import opened ToolMoves
  import opened Contents

  /** A step of the session's workflow that the client answers, not an MCP server. */
  predicate ClientStep(wfs: Catalogue, row: Session, step: StepId) {
    row.workflowType in wfs && FindStep(wfs[row.workflowType], step) >= 0
    && wfs[row.workflowType].steps[FindStep(wfs[row.workflowType], step)].action.Llm?
  }

  /** The reply tells the client that session s now stands at this step. */
  predicate Names(reply: Reply, s: Sid, step: StepId) {
    match reply
    case Started(x, q) => x == s && q == step
    case Entered(x, _, q) => x == s && q == step
    case Pushed(x, _, q) => x == s && q == step
    case Advanced(x, q, _, _) => x == s && q == step
    case _ => false
  }

  /** The call brought the pointer of s to the step: its reply says so, or it entered s there, which
      the reply keeps silent about when the caller was evicted. */
  ghost predicate Arrives(db: Db, t: Tick, s: Sid, step: StepId)
    requires WellFormedConfig(t.event.cfg)
  {
    var (b, reply) := ApplyEvicting(db, t.event, t.victims);
    || Names(reply, s, step)
    || (t.event.call.Enter? && s == db.nextSid && s in b.sessions && b.sessions[s].currentStep == step)
  }

  function OneIf(c: bool): nat {
    if c then 1 else 0
  }

  // --- Each write on the way ------------------------------------------------------------------------

  /** No session appeared, and the counts of client steps grew exactly as the reply says. */
  ghost predicate Counted(wfs: Catalogue, a: Db, b: Db, reply: Reply) {
    && b.nextSid == a.nextSid
    && (forall s :: s in b.sessions ==> s in a.sessions && b.sessions[s].workflowType == a.sessions[s].workflowType)
    && (forall s, step :: s in b.sessions && ClientStep(wfs, b.sessions[s], step) ==>
          VisitsOf(b.sessions[s], step) == VisitsOf(a.sessions[s], step) + OneIf(Names(reply, s, step)))
    && (forall s, step :: Names(reply, s, step) ==> s in b.sessions)
  }

  /** No counts changed, and no session appeared. */
  ghost predicate SameVisits(a: Db, b: Db) {
    && b.nextSid == a.nextSid
    && forall s :: s in b.sessions ==> s in a.sessions && b.sessions[s].workflowType == a.sessions[s].workflowType
                                       && b.sessions[s].visits == a.sessions[s].visits
  }

  predicate Silent(reply: Reply) {
    !(reply.Started? || reply.Entered? || reply.Pushed? || reply.Advanced?)
  }

  lemma SameIsCounted(wfs: Catalogue, a: Db, b: Db, reply: Reply)
    requires SameVisits(a, b) && Silent(reply)
    ensures Counted(wfs, a, b, reply)
  {
    hide ClientStep;
  }

  lemma SameThenCounted(wfs: Catalogue, a: Db, b: Db, c: Db, reply: Reply)
    requires SameVisits(a, b) && Counted(wfs, b, c, reply)
    ensures Counted(wfs, a, c, reply)
  {
    forall s, step | s in c.sessions && ClientStep(wfs, c.sessions[s], step)
      ensures VisitsOf(c.sessions[s], step) == VisitsOf(a.sessions[s], step) + OneIf(Names(reply, s, step))
    {
      assert s in b.sessions;
    }
  }

  /** A silent write, then a counted one. */
  lemma CountedThen(wfs: Catalogue, a: Db, b: Db, c: Db, quiet: Reply, reply: Reply)
    requires Counted(wfs, a, b, quiet) && Silent(quiet) && Counted(wfs, b, c, reply)
    ensures Counted(wfs, a, c, reply)
  {
    forall s, step | s in c.sessions && ClientStep(wfs, c.sessions[s], step)
      ensures VisitsOf(c.sessions[s], step) == VisitsOf(a.sessions[s], step) + OneIf(Names(reply, s, step))
    {
      assert s in b.sessions && ClientStep(wfs, b.sessions[s], step);
    }
  }

  lemma {:induction false} IncVisitsCount(db: Db, s: Sid, steps: seq<StepId>, step: StepId, now: int)
    ensures var b := IncVisits(db, s, steps, now);
            && b.sessions.Keys == db.sessions.Keys
            && (s in db.sessions ==> VisitsOf(b.sessions[s], step) == VisitsOf(db.sessions[s], step) + multiset(steps)[step])
  {
    if steps != [] {
      IncVisitsCount(db, s, steps[..|steps| - 1], step, now);
      assert steps == steps[..|steps| - 1] + [steps[|steps| - 1]];
    }
  }

  /** A movement counts every step it executes, and the step it ends at. */
  lemma MovementVisits(db: Db, s: Sid, m: Movement, step: StepId, now: int)
    ensures var b := WriteMovement(db, s, m, now);
            && b.sessions.Keys == db.sessions.Keys
            && (s in db.sessions ==>
                  VisitsOf(b.sessions[s], step) ==
                  VisitsOf(db.sessions[s], step) + (if m.Blocked? then 0 else multiset(m.executed)[step])
                  + OneIf(m.Moved? && m.at == step && m.at != COMPLETE))
  {
    hide IncVisits;
    if !m.Blocked? {
      IncVisitsCount(db, s, m.executed, step, now);
    }
  }

  /** ... so a step it does not execute is counted only where it ends. */
  lemma MovementCounts(db: Db, s: Sid, m: Movement, step: StepId, now: int)
    requires m.Blocked? || step !in m.executed
    ensures var b := WriteMovement(db, s, m, now);
            && b.sessions.Keys == db.sessions.Keys
            && (s in db.sessions ==>
                  VisitsOf(b.sessions[s], step) ==
                  VisitsOf(db.sessions[s], step) + OneIf(m.Moved? && m.at == step && m.at != COMPLETE))
  {
    hide WriteMovement;
    MovementVisits(db, s, m, step, now);
  }

  lemma MoveExecutesMcp(env: Env, wf: Workflow, next: StepId, data: StepData, forced: bool)
    requires UniqueIds(wf) && ForwardMcp(wf)
    ensures var m := Move(env, wf, next, data, forced); !m.Blocked? ==> forall id :: id in m.executed ==> IsMcpStep(wf, id)
  {
    hide AutoRun, UniqueIds, ForwardMcp, IsMcpStep, ExecutedBetween, StoredExactly;
    var r := Stepping.ApplySkips(env, wf, data, next, forced);
    if r.At? {
      AutoRunFrom(env, wf, r.id, data);
      ExecutedAreMcp(wf, data, Position(wf, r.id), AutoRun(env, wf, r.id, data, []));
    }
  }

  /** What a session's movement is answered with. */
  function Answer(s: Sid, wf: Workflow, m: Movement, propagated: bool): Reply {
    if m.Moved? then AdvanceReply(s, wf, m.at, propagated) else Error(SkippedPredecessor)
  }

  lemma MovementCounted(wfs: Catalogue, wf: Workflow, db: Db, s: Sid, m: Movement, propagated: bool, now: int)
    requires s in db.sessions && UniqueIds(wf) && (db.sessions[s].workflowType in wfs ==> wfs[db.sessions[s].workflowType] == wf)
    requires m.Blocked? || forall id :: id in m.executed ==> IsMcpStep(wf, id)
    ensures Counted(wfs, db, WriteMovement(db, s, m, now), Answer(s, wf, m, propagated))
  {
    hide WriteMovement, UniqueIds;
    var b, reply := WriteMovement(db, s, m, now), Answer(s, wf, m, propagated);
    MovementOnlyRow(db, s, m, now);
    forall o, step | o in b.sessions && ClientStep(wfs, b.sessions[o], step)
      ensures o in db.sessions && VisitsOf(b.sessions[o], step) == VisitsOf(db.sessions[o], step) + OneIf(Names(reply, o, step))
    {
      if o == s {
        MovementCounts(db, s, m, step, now);
        NotComplete(wf, step);
      }
    }
  }

  lemma NotComplete(wf: Workflow, step: StepId)
    requires UniqueIds(wf) && FindStep(wf, step) >= 0
    ensures step != COMPLETE
  {
  }

  lemma FailUpwardsCounted(wfs: Catalogue, db: Db, s: Sid, reply: Reply, now: int)
    requires Silent(reply)
    ensures var (b, r) := FailUpwards(db, s, reply, now); SameVisits(db, b) && Silent(r) && Counted(wfs, db, b, r)
  {
    hide Counted, ParentOf;
    var (b, r) := FailUpwards(db, s, reply, now);
    SameIsCounted(wfs, db, b, r);
  }

  lemma ResolveSame(cfg: Config, db: Db, s: Sid, now: int)
    ensures var a := Resolve(cfg, db, s, now); a.Refused? ==> SameVisits(db, a.db)
  {
    hide SetStep, SameVisits, Stale;
    NothingSame(db);
    SetStepSame(db, s, WORKFLOW_CHANGED, now);
  }

  // --- A hand-over ------------------------------------------------------------------------------------

  lemma AdvanceCounted(cfg: Config, env: Env, db: Db, p: Sid, wf: Workflow, i: nat, data: StepData, now: int)
    requires i < |wf.steps| && WellFormedWorkflow(wf) && wf.steps[i].call.Some? && p in db.sessions
    requires db.sessions[p].workflowType in cfg.workflows && wf == cfg.workflows[db.sessions[p].workflowType]
    ensures var (b, reply) := AdvanceParent(env, db, p, wf, i, data, now); Counted(cfg.workflows, db, b, reply)
  {
    hide Move, WriteMovement, Counted, UniqueIds, BackwardRefs, TargetsExist, ForwardMcp, IsMcpStep;
    var step := wf.steps[i];
    assert step in wf.steps;
    var next := if step.branches != [] then step.defaultBranch.value else Stepping.NextInOrder(wf, i);
    MoveExecutesMcp(env, wf, next, data, false);
    MovementCounted(cfg.workflows, wf, db, p, Move(env, wf, next, data, false), true, now);
  }

  lemma UnlinkSame(db: Db, child: Sid, p: Sid, now: int)
    ensures SameVisits(db, Unlink(db, child, p, now))
    ensures child != p && p in db.sessions ==> p in Unlink(db, child, p, now).sessions
  {
  }

  lemma WithheldSame(cfg: Config, env: Env, db: Db, child: Sid, p: Sid, artifact: string, now: int)
    ensures var h := HandoverOf(cfg, env, db, child, p, artifact, now); h.Withheld? ==> SameVisits(db, h.db) && Silent(h.reply)
  {
    hide ParentOf, SetStep, FailUpwards, Stale;
    ResolveSame(cfg, db, p, now);
    FailUpwardsCounted(map[], db, child, ValidationError(false), now);
  }

  lemma AutoResumeCounted(cfg: Config, env: Env, db: Db, child: Sid, p: Sid, childWf: Workflow, data: StepData, now: int)
    requires WellFormedConfig(cfg) && |childWf.steps| > 0 && child != p
    ensures var (b, reply) := AutoResume(cfg, env, db, child, p, childWf, data, now); Counted(cfg.workflows, db, b, reply)
  {
    hide AdvanceParent, Counted, SameVisits, FinalArtifact, Unlink, Stale, UniqueIds, BackwardRefs, TargetsExist, FieldRules, ForwardMcp;
    var (b, reply) := AutoResume(cfg, env, db, child, p, childWf, data, now);
    if child in db.frames && db.frames[child].kind == DigressionFrame {
      ResumeSame(cfg, db, child, p, now);
      SameIsCounted(cfg.workflows, db, b, reply);
    } else {
      var artifact := FinalArtifact(childWf, data);
      WithheldSame(cfg, env, db, child, p, artifact, now);
      match HandoverOf(cfg, env, db, child, p, artifact, now)
      case Withheld(_, _) => SameIsCounted(cfg.workflows, db, b, reply);
      case Delivered(row, wf, i) =>
        var unlinked := Unlink(db, child, p, now);
        UnlinkSame(db, child, p, now);
        UnlinkRests(db, child, p, now);
        AdvanceCounted(cfg, env, unlinked, p, wf, i, row.stepData[row.currentStep := artifact], now);
        SameThenCounted(cfg.workflows, db, unlinked, b, reply);
    }
  }

  lemma ResumeSame(cfg: Config, db: Db, child: Sid, outer: Sid, now: int)
    ensures var (b, reply) := ResumeOuter(cfg, db, child, outer, now); SameVisits(db, b) && Silent(reply)
  {
    ResolveSame(cfg, db, outer, now);
  }

  // --- submit_step --------------------------------------------------------------------------------------

  lemma MovedCounted(cfg: Config, env: Env, db: Db, s: Sid, wf: Workflow, next: StepId, data: StepData, forced: bool, now: int)
    requires WellFormedConfig(cfg) && Sound(db) && s in db.sessions && db.sessions[s].workflowType in cfg.workflows
    requires wf == cfg.workflows[db.sessions[s].workflowType]
    ensures var m := Move(env, wf, next, data, forced);
            var db1 := WriteMovement(db, s, m, now);
            var (b, reply) := if !m.Moved? then FailUpwards(db1, s, Error(SkippedPredecessor), now)
                              else if m.at == COMPLETE && ParentOf(db1, s).Some?
                                then AutoResume(cfg, env, db1, s, ParentOf(db1, s).value, wf, m.data, now)
                              else (db1, AdvanceReply(s, wf, m.at, false));
            Counted(cfg.workflows, db, b, reply)
  {
    hide Move, WriteMovement, AutoResume, FailUpwards, Counted, SameVisits, ParentOf, Sound, IsMcpStep;
    hide UniqueIds, BackwardRefs, TargetsExist, FieldRules, ForwardMcp;
    var m := Move(env, wf, next, data, forced);
    var db1 := WriteMovement(db, s, m, now);
    MoveExecutesMcp(env, wf, next, data, forced);
    MovementCounted(cfg.workflows, wf, db, s, m, false, now);
    MovementSameShape(db, s, m, now);
    SameShapeSound(db, db1);
    if !m.Moved? {
      FailUpwardsCounted(cfg.workflows, db1, s, Error(SkippedPredecessor), now);
      var (b, reply) := FailUpwards(db1, s, Error(SkippedPredecessor), now);
      CountedThen(cfg.workflows, db, db1, b, Error(SkippedPredecessor), reply);
    } else if m.at == COMPLETE && ParentOf(db1, s).Some? {
      NeighboursUnique(db1, s);
      AutoResumeCounted(cfg, env, db1, s, ParentOf(db1, s).value, wf, m.data, now);
      var (b, reply) := AutoResume(cfg, env, db1, s, ParentOf(db1, s).value, wf, m.data, now);
      CountedThen(cfg.workflows, db, db1, b, Finished(s, false), reply);
    }
  }

  lemma CommitCounted(cfg: Config, env: Env, db: Db, s: Sid, row: Session, wf: Workflow, i: nat, content: string, branch: string, now: int)
    requires WellFormedConfig(cfg) && Sound(db) && s in db.sessions && i < |wf.steps|
    requires db.sessions[s].workflowType in cfg.workflows && wf == cfg.workflows[db.sessions[s].workflowType]
    ensures var (b, reply) := Commit(cfg, env, db, s, row, wf, i, content, branch, now); Counted(cfg.workflows, db, b, reply)
  {
    hide Move, WriteMovement, AutoResume, FailUpwards, Counted, SameVisits, ParentOf, Sound, AdvanceReply, SetEscalation, SetData;
    hide UniqueIds, BackwardRefs, TargetsExist, FieldRules, ForwardMcp;
    var data := row.stepData[wf.steps[i].id := content];
    var fired := FirstGuardrail(env, wf.guardrails, content, data, row, wf.steps[i].id);
    if fired.Some? && fired.value.action.Escalate? {
      EscalationCounted(cfg.workflows, db, s, fired.value.id, data, now);
    } else {
      var requested := Requested(wf, i, fired, branch);
      if requested.Some? {
        MovedCounted(cfg, env, db, s, wf, requested.value.0, data, requested.value.1, now);
      } else {
        NothingCounted(cfg.workflows, db, Error(InvalidArgument));
      }
    }
  }

  lemma NothingCounted(wfs: Catalogue, db: Db, reply: Reply)
    requires Silent(reply)
    ensures Counted(wfs, db, db, reply)
  {
    hide ClientStep;
  }

  lemma EscalationCounted(wfs: Catalogue, db: Db, s: Sid, reason: string, data: StepData, now: int)
    ensures var (b, reply) := FailUpwards(SetData(SetEscalation(db, s, reason, now), s, data, now), s, Error(SessionEscalated), now);
            Counted(wfs, db, b, reply)
  {
    hide FailUpwards, Counted, SetData, SetEscalation, SameVisits;
    var db1 := SetData(SetEscalation(db, s, reason, now), s, data, now);
    EscalatedSame(db, s, reason, data, now);
    FailUpwardsCounted(wfs, db1, s, Error(SessionEscalated), now);
    var (b, reply) := FailUpwards(db1, s, Error(SessionEscalated), now);
    SameThenCounted(wfs, db, db1, b, reply);
  }

  lemma EscalatedSame(db: Db, s: Sid, reason: string, data: StepData, now: int)
    ensures SameVisits(db, SetData(SetEscalation(db, s, reason, now), s, data, now))
  {
  }

  lemma StoredSame(db: Db, s: Sid, step: StepId, artifact: string, content: string, now: int)
    ensures SameVisits(db, StoreArtifact(db, s, step, artifact, content, now))
  {
  }

  lemma ArtifactCounted(cfg: Config, env: Env, db: Db, s: Sid, i: nat, content: string, branch: string, artifact: string, now: int)
    requires WellFormedConfig(cfg) && Sound(db) && s in db.sessions && db.sessions[s].workflowType in cfg.workflows
    requires i < |cfg.workflows[db.sessions[s].workflowType].steps|
    ensures var wf := cfg.workflows[db.sessions[s].workflowType];
            var (b, reply) := SubmitArtifact(cfg, env, db, s, db.sessions[s], wf, i, content, branch, artifact, now);
            Counted(cfg.workflows, db, b, reply)
  {
    hide Commit, Counted, Sound, StoreArtifact, FindArtifact, SameVisits, SameShape, UniqueIds, BackwardRefs, TargetsExist, FieldRules, ForwardMcp;
    var row, wf := db.sessions[s], cfg.workflows[db.sessions[s].workflowType];
    var stored := StoreArtifact(db, s, wf.steps[i].id, artifact, content, now);
    var (b, reply) := SubmitArtifact(cfg, env, db, s, row, wf, i, content, branch, artifact, now);
    StoredSame(db, s, wf.steps[i].id, artifact, content, now);
    if Silent(reply) {
      NothingCounted(cfg.workflows, db, reply);
      SameIsCounted(cfg.workflows, db, stored, reply);
    }
    CommitCounted(cfg, env, db, s, row, wf, i, content, branch, now);
    StoreArtifactOnlyRow(db, s, wf.steps[i].id, artifact, content, now);
    OnlyRowKeeps(db, stored, s);
    CommitCounted(cfg, env, stored, s, row, wf, i, content, branch, now);
    var (d, answer) := Commit(cfg, env, stored, s, row, wf, i, content, branch, now);
    SameThenCounted(cfg.workflows, db, stored, d, answer);
  }

  lemma OnlyRowKeeps(a: Db, b: Db, s: Sid)
    requires Sound(a) && OnlyRow(a, b, s)
    ensures Sound(b) && b.sessions.Keys == a.sessions.Keys && (s in a.sessions ==> b.sessions[s].workflowType == a.sessions[s].workflowType)
  {
    SameShapeSound(a, b);
  }

  lemma ContentCounted(cfg: Config, env: Env, db: Db, s: Sid, i: nat, content: string, branch: string, now: int)
    requires WellFormedConfig(cfg) && Sound(db) && s in db.sessions && db.sessions[s].workflowType in cfg.workflows
    requires i < |cfg.workflows[db.sessions[s].workflowType].steps|
    ensures var wf := cfg.workflows[db.sessions[s].workflowType];
            var (b, reply) := SubmitContent(cfg, env, db, s, db.sessions[s], wf, i, content, branch, now);
            Counted(cfg.workflows, db, b, reply)
  {
    hide Commit, Counted, Sound, IncRetry, FailUpwards, SameVisits, UniqueIds, BackwardRefs, TargetsExist, FieldRules, ForwardMcp;
    var wf := cfg.workflows[db.sessions[s].workflowType];
    CommitCounted(cfg, env, db, s, db.sessions[s], wf, i, content, branch, now);
    RetriedCounted(cfg.workflows, db, s, wf.steps[i].id, now);
  }

  lemma RetriedCounted(wfs: Catalogue, db: Db, s: Sid, step: StepId, now: int)
    ensures Counted(wfs, db, IncRetry(db, s, step, now), ValidationError(false))
    ensures var (b, reply) := FailUpwards(IncRetry(db, s, step, now), s, ValidationError(true), now); Counted(wfs, db, b, reply)
  {
    hide FailUpwards, Counted;
    var db1 := IncRetry(db, s, step, now);
    SameIsCounted(wfs, db, db1, ValidationError(false));
    FailUpwardsCounted(wfs, db1, s, ValidationError(true), now);
    var (b, reply) := FailUpwards(db1, s, ValidationError(true), now);
    SameThenCounted(wfs, db, db1, b, reply);
  }

  lemma SubmitCounted(cfg: Config, env: Env, db: Db, s: Sid, stepId: StepId, content: string, branch: string, artifact: string, now: int)
    requires WellFormedConfig(cfg) && Sound(db)
    ensures var (b, reply) := SubmitStep(cfg, env, db, s, stepId, content, branch, artifact, now); Counted(cfg.workflows, db, b, reply)
  {
    hide SubmitArtifact, SubmitContent, Counted, SameVisits, Sound, TopFrame, Stale, UniqueIds, BackwardRefs, TargetsExist, FieldRules, ForwardMcp;
    NothingCounted(cfg.workflows, db, Error(InvalidArgument));
    match Resolve(cfg, db, s, now)
    case Refused(db1, code) =>
      ResolveSame(cfg, db, s, now);
      SameIsCounted(cfg.workflows, db, db1, Error(code));
    case Ready(row, wf) =>
      match SubmitRefusal(env, db, s, row, wf, stepId, content)
      case Some(code) => NothingCounted(cfg.workflows, db, Error(code));
      case None =>
        ArtifactCounted(cfg, env, db, s, FindStep(wf, stepId), content, branch, artifact, now);
        ContentCounted(cfg, env, db, s, FindStep(wf, stepId), content, branch, now);
  }

  // --- The other tools ----------------------------------------------------------------------------------

  /** Sessions that were there keep their counts; at most the one under the next free id appeared. */
  ghost predicate SameBut(a: Db, b: Db) {
    && b.nextSid >= a.nextSid
    && forall s :: s in b.sessions && s != a.nextSid ==> s in a.sessions && b.sessions[s].workflowType == a.sessions[s].workflowType
                                                         && b.sessions[s].visits == a.sessions[s].visits
  }

  /** A fresh session has visited one client step or none: the one it is told to stand at. */
  ghost predicate CountedFresh(wfs: Catalogue, b: Db, s: Sid, at: Option<StepId>) {
    forall step :: s in b.sessions && ClientStep(wfs, b.sessions[s], step) ==>
      VisitsOf(b.sessions[s], step) == OneIf(at == Some(step))
  }

  lemma RunFrontSame(db: Db, s: Sid, wf: Workflow, first: StepId, r: AutoResult, now: int)
    ensures var b := RunFront(db, s, wf, first, r, now).0;
            && b.sessions.Keys == db.sessions.Keys && b.nextSid == db.nextSid
            && (forall o :: o in db.sessions && o != s ==> b.sessions[o] == db.sessions[o])
            && (forall o :: o in db.sessions ==> b.sessions[o].workflowType == db.sessions[o].workflowType)
  {
    hide IncVisits, IncVisit, SetStepAndData, OnlyRow;
    var db1 := IncVisits(db, s, r.executed, now);
    IncVisitsOnlyRow(db, s, r.executed, now);
    SetBothOnlyRow(db1, s, r.at, r.data, now);
    OnlyRowThen(db, db1, SetStepAndData(db1, s, r.at, r.data, now), s);
    var db2 := if r.at != first then SetStepAndData(db1, s, r.at, r.data, now) else db1;
    IncVisitOnlyRow(db2, s, r.at, now);
    OnlyRowThen(db, db2, IncVisit(db2, s, r.at, now), s);
    OnlyRowFields(db, RunFront(db, s, wf, first, r, now).0, s);
  }

  lemma OnlyRowFields(a: Db, b: Db, s: Sid)
    requires OnlyRow(a, b, s)
    ensures b.sessions.Keys == a.sessions.Keys && b.nextSid == a.nextSid
    ensures forall o :: o in a.sessions && o != s ==> b.sessions[o] == a.sessions[o]
    ensures forall o :: o in a.sessions ==> b.sessions[o].workflowType == a.sessions[o].workflowType
  {
  }

  lemma RunFrontCounts(db: Db, s: Sid, wf: Workflow, first: StepId, r: AutoResult, step: StepId, now: int)
    requires s in db.sessions
    ensures var b := RunFront(db, s, wf, first, r, now).0;
            && s in b.sessions
            && VisitsOf(b.sessions[s], step) ==
               VisitsOf(db.sessions[s], step) + multiset(r.executed)[step]
               + OneIf(!r.cascaded && r.at == step && r.at != first && r.at != COMPLETE)
  {
    hide IncVisits;
    IncVisitsCount(db, s, r.executed, step, now);
  }

  lemma StartCounted(cfg: Config, env: Env, db: Db, name: Name, victims: set<Sid>, now: int)
    requires WellFormedConfig(cfg)
    ensures var (b, reply) := StartWorkflow(cfg, env, db, name, victims, now);
            || (b == db && Silent(reply))
            || (SameBut(db, b) && db.nextSid in b.sessions && (Silent(reply) || (reply.Started? && reply.session == db.nextSid))
                && CountedFresh(cfg.workflows, b, db.nextSid, if reply.Started? then Some(reply.step) else None))
  {
    hide AutoRun, RunFront, CreateRoot, IncVisit, CountActive, UniqueIds, BackwardRefs, TargetsExist, FieldRules, ForwardMcp, FingerprintFor, IsMcpStep;
    if name != "" && name in cfg.workflows && CountActive(db) < MAX_ACTIVE {
      var wf := cfg.workflows[name];
      var first := wf.steps[0].id;
      var root, r := NewRoot(cfg, env, db, name, victims, now), AutoRun(env, wf, first, map[], []);
      var b := RunFront(root, db.nextSid, wf, first, r, now).0;
      NewRootRow(cfg, env, db, name, victims, now);
      RunFrontSame(root, db.nextSid, wf, first, r, now);
      var reply := RunFront(root, db.nextSid, wf, first, r, now).1;
      StartedAt(root, db.nextSid, wf, first, r, now);
      forall step | ClientStep(cfg.workflows, b.sessions[db.nextSid], step)
        ensures VisitsOf(b.sessions[db.nextSid], step) == OneIf((if reply.Started? then Some(reply.step) else None) == Some(step))
      {
        FrontExecutes(env, wf, step);
        RunFrontCounts(root, db.nextSid, wf, first, r, step, now);
        NotComplete(wf, step);
      }
      assert SameBut(db, b);
    }
  }

  lemma NewRootRow(cfg: Config, env: Env, db: Db, name: Name, victims: set<Sid>, now: int)
    requires WellFormedConfig(cfg) && name in cfg.workflows
    ensures var b := NewRoot(cfg, env, db, name, victims, now);
            && SameBut(db, b) && db.nextSid in b.sessions && b.sessions[db.nextSid].workflowType == name
            && b.sessions[db.nextSid].visits == map[cfg.workflows[name].steps[0].id := 1]
  {
  }

  /** The in-line run at the front executes no client step, and does not leave one at the front. */
  lemma FrontExecutes(env: Env, wf: Workflow, step: StepId)
    requires WellFormedWorkflow(wf) && FindStep(wf, step) >= 0 && wf.steps[FindStep(wf, step)].action.Llm?
    ensures var r := AutoRun(env, wf, wf.steps[0].id, map[], []);
            step !in r.executed && (step == wf.steps[0].id ==> r.at == step && !r.cascaded)
  {
    hide ExecutedBetween, StoredExactly, BackwardRefs, TargetsExist, FieldRules, ForwardMcp;
    var r := AutoRun(env, wf, wf.steps[0].id, map[], []);
    AutoRunFrom(env, wf, wf.steps[0].id, map[]);
    ExecutedAreMcp(wf, map[], Position(wf, wf.steps[0].id), r);
  }

  lemma StartedAt(db: Db, s: Sid, wf: Workflow, first: StepId, r: AutoResult, now: int)
    ensures var reply := RunFront(db, s, wf, first, r, now).1;
            && (Silent(reply) || (reply.Started? && reply.session == s))
            && forall step :: FindStep(wf, step) >= 0 && step != COMPLETE ==>
                 (!r.cascaded && r.at == step <==> reply.Started? && reply.step == step)
  {
  }

  lemma CreateChildSame(db: Db, victims: set<Sid>, target: Name, first: StepId, p: Sid, kind: FrameKind,
                        callStep: Option<StepId>, maxDepth: Option<nat>, fp: string, now: int)
    requires Sound(db)
    ensures var b := CreateChild(db, victims, target, first, p, kind, callStep, maxDepth, fp, now);
            && SameBut(db, b) && (db.nextSid in b.sessions <==> !PushFull(db, victims, p, maxDepth))
            && (db.nextSid in b.sessions ==> b.sessions[db.nextSid] == NewSession(target, first, Some(p), fp, now))
  {
    hide PushFull;
    FreshIsNew(db);
  }

  lemma SpawnCounted(cfg: Config, env: Env, db: Db, victims: set<Sid>, target: Name, p: Sid, kind: FrameKind,
                     callStep: Option<StepId>, maxDepth: Option<nat>, now: int)
    requires WellFormedConfig(cfg) && target in cfg.workflows && Sound(db)
    ensures var b := SpawnChild(cfg, env, db, victims, target, p, kind, callStep, maxDepth, now);
            var first := cfg.workflows[target].steps[0].id;
            && SameBut(db, b) && CountedFresh(cfg.workflows, b, db.nextSid, Some(first))
            && (db.nextSid in b.sessions <==> !PushFull(db, victims, p, maxDepth))
            && (db.nextSid in b.sessions ==> b.sessions[db.nextSid].currentStep == first && b.sessions[db.nextSid].workflowType == target)
  {
    hide PushFull, ClientStep, FingerprintFor, CreateChild, Sound, UniqueIds, BackwardRefs, TargetsExist, FieldRules, ForwardMcp;
    var first, fp := cfg.workflows[target].steps[0].id, FingerprintFor(cfg, env, target);
    CreateChildSame(db, victims, target, first, p, kind, callStep, maxDepth, fp, now);
  }

  lemma FreshIsNew(db: Db)
    requires Sound(db)
    ensures db.nextSid !in db.sessions
  {
  }

  lemma LinkSame(db: Db, p: Sid, c: Sid, step: StepId, now: int)
    ensures var b := LinkCalled(db, p, c, step, now);
            && b.sessions.Keys == db.sessions.Keys && b.nextSid == db.nextSid
            && forall s :: s in db.sessions ==> b.sessions[s].visits == db.sessions[s].visits
                                                && b.sessions[s].workflowType == db.sessions[s].workflowType
                                                && b.sessions[s].currentStep == db.sessions[s].currentStep
  {
  }

  lemma CallChildCounted(cfg: Config, env: Env, db: Db, victims: set<Sid>, target: Name, p: Sid, stepId: StepId, now: int)
    requires WellFormedConfig(cfg) && target in cfg.workflows && Sound(db)
    ensures var b := CallChild(cfg, env, db, victims, target, p, stepId, now);
            && SameBut(db, b) && db.nextSid in b.sessions
            && CountedFresh(cfg.workflows, b, db.nextSid, Some(b.sessions[db.nextSid].currentStep))
            && b.sessions[db.nextSid].currentStep == cfg.workflows[target].steps[0].id
  {
    hide SpawnChild, LinkCalled, Sound, WellFormedWorkflow;
    SpawnCounted(cfg, env, db, victims, target, p, CallFrame, None, None, now);
    LinkSame(SpawnChild(cfg, env, db, victims, target, p, CallFrame, None, None, now), p, db.nextSid, stepId, now);
  }

  lemma EnterCounted(cfg: Config, env: Env, db: Db, p: Sid, stepId: StepId, victims: set<Sid>, now: int)
    requires WellFormedConfig(cfg) && Sound(db)
    ensures var (b, reply) := EnterSubWorkflow(cfg, env, db, p, stepId, victims, now);
            || (SameVisits(db, b) && Silent(reply))
            || (SameBut(db, b) && db.nextSid in b.sessions
                && (forall s, step :: Names(reply, s, step) ==> s == db.nextSid && step == b.sessions[s].currentStep)
                && CountedFresh(cfg.workflows, b, db.nextSid, Some(b.sessions[db.nextSid].currentStep)))
  {
    hide CallChild, SameVisits, SameBut, CountedFresh, Sound, TopFrame, ResolveRef, Stale, UniqueIds, BackwardRefs, TargetsExist, FieldRules, ForwardMcp;
    NothingSame(db);
    match Resolve(cfg, db, p, now)
    case Refused(_, _) => ResolveSame(cfg, db, p, now);
    case Ready(row, wf) =>
      if stepId != "" && EnterRefusal(cfg, env, db, p, row, wf, stepId).None? {
        CallChildCounted(cfg, env, db, victims, wf.steps[FindStep(wf, stepId)].call.value, p, stepId, now);
      }
  }

  lemma NothingSame(db: Db)
    ensures SameVisits(db, db)
  {
  }

  lemma PushCounted(cfg: Config, env: Env, db: Db, s: Sid, name: Name, pausedAt: StepId, victims: set<Sid>, now: int)
    requires WellFormedConfig(cfg) && Sound(db)
    ensures var (b, reply) := PushFlow(cfg, env, db, s, name, pausedAt, victims, now);
            || (SameVisits(db, b) && Silent(reply))
            || (SameBut(db, b) && db.nextSid in b.sessions && (Silent(reply) || (reply.Pushed? && reply.session == db.nextSid))
                && CountedFresh(cfg.workflows, b, db.nextSid, if reply.Pushed? then Some(reply.step) else None))
  {
    hide SpawnChild, SameVisits, SameBut, Sound, TopFrame, StackDepth, CountActive, PushFull, Stale, UniqueIds, BackwardRefs, TargetsExist,
         FieldRules, ForwardMcp;
    NothingSame(db);
    match Resolve(cfg, db, s, now)
    case Refused(_, _) => ResolveSame(cfg, db, s, now);
    case Ready(row, wf) =>
      if name != "" && pausedAt != "" && PushRefusal(cfg, db, s, row, name, pausedAt).None? {
        SpawnCounted(cfg, env, db, victims, name, s, DigressionFrame, Some(pausedAt), Some(MAX_STACK_DEPTH), now);
        FirstFound(cfg.workflows[name]);
      }
  }

  lemma FirstFound(wf: Workflow)
    requires WellFormedWorkflow(wf)
    ensures FindStep(wf, wf.steps[0].id) == 0
  {
    PositionOfIdAt(wf, 0);
  }

  lemma ReviseSame(cfg: Config, db: Db, s: Sid, stepId: StepId, now: int)
    ensures var (b, reply) := ReviseStep(cfg, db, s, stepId, now); SameVisits(db, b) && Silent(reply)
  {
    hide SameVisits, ReviseTo, TopFrame, Stale;
    NothingSame(db);
    match Resolve(cfg, db, s, now)
    case Refused(_, _) => ResolveSame(cfg, db, s, now);
    case Ready(row, wf) =>
      if FindStep(wf, stepId) >= 0 {
        ReviseToSame(db, s, wf, FindStep(wf, stepId), now);
      }
  }

  lemma ReviseToSame(db: Db, s: Sid, wf: Workflow, i: nat, now: int)
    requires i < |wf.steps|
    ensures SameVisits(db, ReviseTo(db, s, wf, i, now))
  {
    hide StepsAfter, TopFrame, DropData, Unlink, SetStep;
    var step := wf.steps[i];
    var db1 := DropData(db, s, StepsAfter(wf, i), now);
    var db2 := if step.call.Some? && TopFrame(db, s).Some? then Unlink(db1, TopFrame(db, s).value, s, now) else db1;
    var db3 := if step.call.Some? then DropData(db2, s, {step.id}, now) else db2;
    DropSame(db, s, StepsAfter(wf, i), now);
    if TopFrame(db, s).Some? {
      UnlinkSame(db1, TopFrame(db, s).value, s, now);
    }
    DropSame(db2, s, {step.id}, now);
    SetStepSame(db3, s, step.id, now);
  }

  lemma DropSame(db: Db, s: Sid, steps: set<StepId>, now: int)
    ensures SameVisits(db, DropData(db, s, steps, now))
  {
  }

  lemma SetStepSame(db: Db, s: Sid, step: StepId, now: int)
    ensures SameVisits(db, SetStep(db, s, step, now))
  {
  }

  lemma PopSame(cfg: Config, db: Db, s: Sid, now: int)
    ensures var (b, reply) := PopFlow(cfg, db, s, now); SameVisits(db, b) && Silent(reply)
  {
    hide SameVisits, ResumeOuter, ParentOf, Stale;
    NothingSame(db);
    ResolveSame(cfg, db, s, now);
    if ParentOf(db, s).Some? {
      ResumeSame(cfg, db, s, ParentOf(db, s).value, now);
    }
  }

  // --- Whole runs ---------------------------------------------------------------------------------------

  function Before(db: Db, s: Sid, step: StepId): nat {
    if s in db.sessions then VisitsOf(db.sessions[s], step) else 0
  }

  /** One call, with any evictions: a count grows by one exactly when the call brought the pointer
      of the session to the step; a session that is gone was brought nowhere. */
  lemma CallCounts(db: Db, t: Tick, s: Sid, step: StepId)
    requires WellFormedConfig(t.event.cfg) && Sound(db)
    requires s in AfterTick(db, t).sessions ==> ClientStep(t.event.cfg.workflows, AfterTick(db, t).sessions[s], step)
    ensures Before(AfterTick(db, t), s, step) ==
            (if s in AfterTick(db, t).sessions then Before(db, s, step) + OneIf(Arrives(db, t, s, step)) else 0)
    ensures s !in AfterTick(db, t).sessions ==> !Arrives(db, t, s, step)
    ensures AfterTick(db, t).nextSid >= db.nextSid
  {
    hide Counted, ClientStep, StartWorkflow, SubmitStep, ReviseStep, EnterSubWorkflow, PushFlow, PopFlow, DeleteTool, Sound;
    hide WellFormedConfig, CountedFresh, SameVisits, SameBut;
    var e := t.event;
    var (b, reply) := ApplyEvicting(db, e, t.victims);
    FreshIsNew(db);
    match e.call {
      case Start(name) =>
        StartCounted(e.cfg, e.env, db, name, t.victims, e.now);
        NothingSame(db);
        FreshOrSame(e.cfg.workflows, db, b, reply, s, step, if reply.Started? then Some(reply.step) else None);
      case Submit(x, stepId, content, branch, artifact) =>
        SubmitCounted(e.cfg, e.env, db, x, stepId, content, branch, artifact, e.now);
        CountedOne(e.cfg.workflows, db, b, reply, s, step);
      case Revise(x, stepId) =>
        ReviseSame(e.cfg, db, x, stepId, e.now);
        FreshOrSame(e.cfg.workflows, db, b, reply, s, step, None);
      case Enter(x, stepId) =>
        EnterCounted(e.cfg, e.env, db, x, stepId, t.victims, e.now);
        FreshOrSame(e.cfg.workflows, db, b, reply, s, step,
                    if db.nextSid in b.sessions then Some(b.sessions[db.nextSid].currentStep) else None);
      case Push(x, name, stepId) =>
        PushCounted(e.cfg, e.env, db, x, name, stepId, t.victims, e.now);
        FreshOrSame(e.cfg.workflows, db, b, reply, s, step, if reply.Pushed? then Some(reply.step) else None);
      case Pop(x) =>
        PopSame(e.cfg, db, x, e.now);
        FreshOrSame(e.cfg.workflows, db, b, reply, s, step, None);
      case Delete(x) =>
        DeleteSame(db, x);
        FreshOrSame(e.cfg.workflows, db, b, reply, s, step, None);
    }
  }

  lemma DeleteSame(db: Db, s: Sid)
    ensures var (b, reply) := DeleteTool(db, s); SameVisits(db, b) && Silent(reply)
  {
  }

  lemma CountedOne(wfs: Catalogue, a: Db, b: Db, reply: Reply, s: Sid, step: StepId)
    requires Counted(wfs, a, b, reply) && (s in b.sessions ==> ClientStep(wfs, b.sessions[s], step))
    ensures s in b.sessions ==> s in a.sessions && VisitsOf(b.sessions[s], step) == VisitsOf(a.sessions[s], step) + OneIf(Names(reply, s, step))
    ensures (s !in b.sessions ==> !Names(reply, s, step)) && b.nextSid == a.nextSid
  {
  }

  lemma FreshOrSame(wfs: Catalogue, a: Db, b: Db, reply: Reply, s: Sid, step: StepId, at: Option<StepId>)
    requires (SameVisits(a, b) && Silent(reply)) || (SameBut(a, b) && a.nextSid in b.sessions && CountedFresh(wfs, b, a.nextSid, at))
    requires a.nextSid !in a.sessions && (s in b.sessions ==> ClientStep(wfs, b.sessions[s], step))
    ensures s in b.sessions ==> if s in a.sessions then VisitsOf(b.sessions[s], step) == VisitsOf(a.sessions[s], step)
                                else s == a.nextSid && VisitsOf(b.sessions[s], step) == OneIf(at == Some(step))
    ensures (Silent(reply) || a.nextSid in b.sessions) && b.nextSid >= a.nextSid
  {
  }

  /** How many calls of a run brought the pointer of s to the step. */
  ghost function Arrivals(db: Db, ticks: seq<Tick>, s: Sid, step: StepId): nat
    requires Loaded(ticks)
    decreases |ticks|
  {
    if ticks == [] then 0 else OneIf(Arrives(db, ticks[0], s, step)) + Arrivals(AfterTick(db, ticks[0]), ticks[1..], s, step)
  }

  /** An id that was handed out and is free is not used again. */
  lemma {:induction false} NeverBack(db: Db, ticks: seq<Tick>, s: Sid)
    requires Sound(db) && Loaded(ticks) && s < db.nextSid && s !in db.sessions
    ensures s !in AfterAll(db, ticks).sessions
    decreases |ticks|
  {
    hide Arrives, ClientStep, ApplyEvicting, CallMoves, Sound;
    if ticks != [] {
      ApplyMoves(db, ticks[0].event, ticks[0].victims);
      NewIsNext(db, ticks[0], s);
      ApplySound(db, ticks[0].event, ticks[0].victims);
      NeverBack(AfterTick(db, ticks[0]), ticks[1..], s);
    }
  }

  lemma NewIsNext(db: Db, t: Tick, s: Sid)
    requires WellFormedConfig(t.event.cfg) && Sound(db) && s < db.nextSid && s !in db.sessions
    ensures s !in AfterTick(db, t).sessions && s < AfterTick(db, t).nextSid
  {
    hide Moves, RevisedTo, FreshRow, Sound, ApplyEvicting, Arrives;
    ApplyMoves(db, t.event, t.victims);
    assert s in AfterTick(db, t).sessions ==> CallMoves(t.event, db, AfterTick(db, t), s);
    CallCounts(db, t, s, "");
  }

  /** Over every run on unchanged workflows, evictions included, the visit count of a client step
      grows by the number of calls that brought the pointer of the session there. */
  lemma {:induction false} VisitsAreArrivals(wfs: Catalogue, db: Db, ticks: seq<Tick>, s: Sid, step: StepId)
    requires Sound(db) && Loaded(ticks) && forall t :: t in ticks ==> t.event.cfg.workflows == wfs
    requires s in AfterAll(db, ticks).sessions && ClientStep(wfs, AfterAll(db, ticks).sessions[s], step)
    ensures VisitsOf(AfterAll(db, ticks).sessions[s], step) == Before(db, s, step) + Arrivals(db, ticks, s, step)
    decreases |ticks|
  {
    hide Arrives, ClientStep, ApplyEvicting, Sound, VisitsOf;
    if ticks != [] {
      var b := AfterTick(db, ticks[0]);
      ApplySound(db, ticks[0].event, ticks[0].victims);
      VisitsAreArrivals(wfs, b, ticks[1..], s, step);
      if s in b.sessions {
        TypeStays(b, ticks[1..], s);
        assert ClientStep(wfs, b.sessions[s], step) by {
          SameClientStep(wfs, b.sessions[s], AfterAll(db, ticks).sessions[s], step);
        }
      } else if s in db.sessions {
        IssuedBelow(db, s);
        GoneForGood(db, ticks, s);
      }
      CallCounts(db, ticks[0], s, step);
    }
  }

  lemma SameClientStep(wfs: Catalogue, a: Session, b: Session, step: StepId)
    requires a.workflowType == b.workflowType && ClientStep(wfs, b, step)
    ensures ClientStep(wfs, a, step)
  {
  }

  lemma IssuedBelow(db: Db, s: Sid)
    requires Sound(db) && s in db.sessions
    ensures s < db.nextSid
  {
  }

  lemma {:induction false} TypeStays(db: Db, ticks: seq<Tick>, s: Sid)
    requires Sound(db) && Loaded(ticks) && s in db.sessions && s in AfterAll(db, ticks).sessions
    ensures AfterAll(db, ticks).sessions[s].workflowType == db.sessions[s].workflowType
    decreases |ticks|
  {
    hide Sound, ApplyEvicting;
    if ticks != [] {
      ApplySound(db, ticks[0].event, ticks[0].victims);
      if s in AfterTick(db, ticks[0]).sessions {
        TypeKept(db, ticks[0], s);
        TypeStays(AfterTick(db, ticks[0]), ticks[1..], s);
      } else {
        IssuedBelow(db, s);
        GoneForGood(db, ticks, s);
      }
    }
  }

  lemma TypeKept(db: Db, t: Tick, s: Sid)
    requires WellFormedConfig(t.event.cfg) && Sound(db) && s in db.sessions && s in AfterTick(db, t).sessions
    ensures AfterTick(db, t).sessions[s].workflowType == db.sessions[s].workflowType
  {
    hide FreshRow, LiveMove, Returns, Sound, ApplyEvicting;
    ApplyMoves(db, t.event, t.victims);
  }

  lemma GoneForGood(db: Db, ticks: seq<Tick>, s: Sid)
    requires Sound(db) && Loaded(ticks) && ticks != [] && s < db.nextSid && s !in AfterTick(db, ticks[0]).sessions
    ensures s !in AfterAll(db, ticks).sessions
  {
    hide Arrives, ClientStep, ApplyEvicting, Sound;
    ApplySound(db, ticks[0].event, ticks[0].victims);
    CallCounts(db, ticks[0], s, "");
    NeverBack(AfterTick(db, ticks[0]), ticks[1..], s);
  }
}
