/** What an accepted submission stores: the content under the submitted step, unless that is an MCP
    step which the in-line run that follows executes again, a child's final artifact under its
    parent's call-step, and nothing else but MCP envelopes. */
module Contents {
  import opened Options
  import opened Workflows
  import opened References
  import Stepping
  import opened InlineExecution
  import opened Tables
  import opened ToolSpecs
  import opened StackSafety
  import opened Soundness
  import opened SessionMoves
  import opened ToolMoves
  import opened Handovers

  predicate IsMcpStep(wf: Workflow, id: StepId) {
    FindStep(wf, id) >= 0 && wf.steps[FindStep(wf, id)].action.McpToolCall?
  }

  /** b is a with this content under sid; only MCP steps may have been stored besides. */
  ghost predicate StoredIn(wf: Workflow, a: StepData, b: StepData, sid: StepId, content: string) {
    && sid in b && b[sid] == content
    && forall o :: o != sid && !IsMcpStep(wf, o) ==> (o in b <==> o in a) && (o in a ==> b[o] == a[o])
  }

  /** The movement executes step sid in-line. */
  predicate Executes(m: Movement, sid: StepId) {
    !m.Blocked? && sid in m.executed
  }

  /** What stays under sid is the content, unless the movement executes sid: then sid is an MCP step,
      the movement starts at or before it, and what stays is the printed envelope. */
  lemma MoveKeeps(env: Env, wf: Workflow, next: StepId, data: StepData, forced: bool, sid: StepId, content: string)
    requires UniqueIds(wf) && ForwardMcp(wf)
    ensures var m := Move(env, wf, next, data[sid := content], forced);
            !m.Blocked? ==>
              && sid in m.data && StoredIn(wf, data, m.data, sid, m.data[sid])
              && (!Executes(m, sid) ==> m.data[sid] == content)
              && (Executes(m, sid) ==> IsMcpStep(wf, sid) && Position(wf, next) <= FindStep(wf, sid)
                                       && exists envelope :: m.data[sid] == env.dumps(envelope))
  {
    hide AutoRun, StoredIn, UniqueIds, ForwardMcp;
    var start := data[sid := content];
    var s := Stepping.ApplySkips(env, wf, start, next, forced);
    Stepping.ApplySkipsForward(env, wf, start, next, forced);
    if s.At? {
      RunKeeps(env, wf, s.id, data, sid, content);
    }
  }

  lemma RunKeeps(env: Env, wf: Workflow, pointer: StepId, data: StepData, sid: StepId, content: string)
    requires UniqueIds(wf) && ForwardMcp(wf)
    ensures var r := AutoRun(env, wf, pointer, data[sid := content], []);
            && sid in r.data && StoredIn(wf, data, r.data, sid, r.data[sid])
            && (sid !in r.executed ==> r.data[sid] == content)
            && (sid in r.executed ==> IsMcpStep(wf, sid) && Position(wf, pointer) <= FindStep(wf, sid)
                                      && exists envelope :: r.data[sid] == env.dumps(envelope))
  {
    hide AutoRun, UniqueIds, ForwardMcp, FindStep, Position, IsMcpStep, ExecutedBetween;
    var start := data[sid := content];
    var r := AutoRun(env, wf, pointer, start, []);
    AutoRunFrom(env, wf, pointer, start);
    ExecutedAreMcp(wf, start, Position(wf, pointer), r);
    if sid in r.executed {
      ExecutedIsPrinted(env, wf, pointer, start, sid);
    }
  }

  lemma ExecutedIsPrinted(env: Env, wf: Workflow, pointer: StepId, start: StepData, sid: StepId)
    requires UniqueIds(wf) && ForwardMcp(wf) && sid in AutoRun(env, wf, pointer, start, []).executed
    ensures var r := AutoRun(env, wf, pointer, start, []);
            sid in r.data && exists envelope :: r.data[sid] == env.dumps(envelope)
  {
    hide AutoRun;
    var r := AutoRun(env, wf, pointer, start, []);
    assert StoredExactly(start, start, []);
    AutoRunJustified(env, wf, pointer, start, [], start, Position(wf, pointer));
    var k :| 0 <= k < |r.executed| && r.executed[k] == sid;
    assert JustifiedAt(env, wf, start, r.data, r.executed, k);
  }

  lemma MoveStores(env: Env, wf: Workflow, next: StepId, data: StepData, forced: bool, sid: StepId, content: string)
    requires UniqueIds(wf) && ForwardMcp(wf) && !IsMcpStep(wf, sid)
    ensures var m := Move(env, wf, next, data[sid := content], forced);
            !m.Blocked? ==> StoredIn(wf, data, m.data, sid, content)
  {
    hide Move, StoredIn, IsMcpStep;
    MoveKeeps(env, wf, next, data, forced, sid, content);
  }

  lemma ExecutedAreMcp(wf: Workflow, start: StepData, from: nat, r: AutoResult)
    requires Executed(wf, start, from, r)
    ensures forall id :: id in r.executed ==> IsMcpStep(wf, id) && FindStep(wf, id) >= from
  {
  }

  /** The outcome of an accepted submission in the tables. */
  ghost predicate ContentsStored(cfg: Config, a: Db, b: Db, s: Sid, stepId: StepId, content: string, reply: Reply) {
    (reply.Advanced? || reply.Finished?) ==>
      && s in a.sessions && a.sessions[s].workflowType in cfg.workflows
      && reply.session in a.sessions && reply.session in b.sessions && a.sessions[reply.session].workflowType in cfg.workflows
      && var wf := cfg.workflows[a.sessions[s].workflowType];
         |wf.steps| > 0 &&
         if !reply.propagated then
           reply.session == s && StoredIn(wf, a.sessions[s].stepData, b.sessions[s].stepData, stepId, content)
         else exists data :: StoredIn(wf, a.sessions[s].stepData, data, stepId, content)
                             && HandedOver(cfg, a, b, reply.session, FinalArtifact(wf, data))
  }

  /** The parent's call-step now holds the artifact. */
  ghost predicate HandedOver(cfg: Config, a: Db, b: Db, p: Sid, artifact: string)
    requires p in a.sessions && p in b.sessions && a.sessions[p].workflowType in cfg.workflows
  {
    StoredIn(cfg.workflows[a.sessions[p].workflowType], a.sessions[p].stepData, b.sessions[p].stepData, a.sessions[p].currentStep, artifact)
  }

  lemma ParentStores(cfg: Config, env: Env, db: Db, p: Sid, row: Session, i: nat, artifact: string, now: int)
    requires WellFormedConfig(cfg) && p in db.sessions && row.workflowType in cfg.workflows
    requires var wf := cfg.workflows[row.workflowType]; i == FindStep(wf, row.currentStep) && wf.steps[i].call.Some?
    ensures var wf := cfg.workflows[row.workflowType];
            var (b, reply) := AdvanceParent(env, db, p, wf, i, row.stepData[row.currentStep := artifact], now);
            (reply.Advanced? || reply.Finished?) ==>
              && reply.session == p && reply.propagated && p in b.sessions
              && StoredIn(wf, row.stepData, b.sessions[p].stepData, row.currentStep, artifact)
  {
    hide Move, WriteMovement, StoredIn, BackwardRefs, TargetsExist, UniqueIds, ForwardMcp;
    var wf := cfg.workflows[row.workflowType];
    var step, data := wf.steps[i], row.stepData[row.currentStep := artifact];
    assert step in wf.steps;
    if !(step.branches != [] && step.defaultBranch.None?) {
      var next := if step.branches != [] then step.defaultBranch.value else Stepping.NextInOrder(wf, i);
      MoveStores(env, wf, next, row.stepData, false, row.currentStep, artifact);
      MovementWrites(db, p, Move(env, wf, next, data, false), now);
    }
  }

  lemma AutoResumeStores(cfg: Config, env: Env, db: Db, child: Sid, p: Sid, childWf: Workflow, data: StepData, now: int)
    requires WellFormedConfig(cfg) && |childWf.steps| > 0 && child != p
    ensures var (b, reply) := AutoResume(cfg, env, db, child, p, childWf, data, now);
            (reply.Advanced? || reply.Finished?) ==>
              && reply.session == p && reply.propagated && p in db.sessions && p in b.sessions
              && db.sessions[p].workflowType in cfg.workflows
              && HandedOver(cfg, db, b, p, FinalArtifact(childWf, data))
  {
    hide AdvanceParent, StoredIn, Stale, BackwardRefs, TargetsExist, FieldRules, UniqueIds, ForwardMcp;
    var artifact := FinalArtifact(childWf, data);
    match HandoverOf(cfg, env, db, child, p, artifact, now)
    case Withheld(_, _) =>
    case Delivered(row, wf, i) =>
      UnlinkRests(db, child, p, now);
      ParentStores(cfg, env, Unlink(db, child, p, now), p, row, i, artifact, now);
  }

  lemma RouteStores(cfg: Config, env: Env, db: Db, s: Sid, row: Session, i: nat, content: string, next: StepId, forced: bool, now: int)
    requires WellFormedConfig(cfg) && Sound(db) && s in db.sessions && Rests(row, db.sessions[s]) && row.workflowType in cfg.workflows
    requires i == FindStep(cfg.workflows[row.workflowType], row.currentStep)
    ensures var wf := cfg.workflows[row.workflowType];
            var m := Move(env, wf, next, row.stepData[row.currentStep := content], forced);
            var db1 := WriteMovement(db, s, m, now);
            m.Moved? ==>
              && row.currentStep in m.data
              && ContentsStored(cfg, db, db1, s, row.currentStep, m.data[row.currentStep], AdvanceReply(s, wf, m.at, false))
              && (ParentOf(db1, s).Some? ==>
                    var (b, reply) := AutoResume(cfg, env, db1, s, ParentOf(db1, s).value, wf, m.data, now);
                    ContentsStored(cfg, db, b, s, row.currentStep, m.data[row.currentStep], reply))
  {
    hide Move, WriteMovement, AutoResume, StoredIn, Sound, BackwardRefs, TargetsExist, FieldRules, UniqueIds,
         ForwardMcp;
    var wf := cfg.workflows[row.workflowType];
    var m := Move(env, wf, next, row.stepData[row.currentStep := content], forced);
    var db1 := WriteMovement(db, s, m, now);
    MoveKeeps(env, wf, next, row.stepData, forced, row.currentStep, content);
    MovementWrites(db, s, m, now);
    MovementSameShape(db, s, m, now);
    NeighboursUnique(db, s);
    if m.Moved? && ParentOf(db1, s).Some? {
      var p := ParentOf(db1, s).value;
      AutoResumeStores(cfg, env, db1, s, p, wf, m.data, now);
    }
  }

  /** The movement that content submitted at step i of this row asks for executes the step again. */
  predicate RunsAgain(env: Env, row: Session, wf: Workflow, i: nat, content: string, branch: string)
    requires i < |wf.steps| && UniqueIds(wf) && ForwardMcp(wf)
  {
    var m := OwnMove(env, row, wf, i, content, branch);
    m.Some? && Executes(m.value, wf.steps[i].id)
  }

  /** What is kept under the step. */
  function Kept(env: Env, row: Session, wf: Workflow, i: nat, content: string, branch: string): string
    requires i < |wf.steps| && UniqueIds(wf) && ForwardMcp(wf)
  {
    var m, id := OwnMove(env, row, wf, i, content, branch), wf.steps[i].id;
    if RunsAgain(env, row, wf, i, content, branch) && id in m.value.data then m.value.data[id] else content
  }

  /** The step a submission asks for is at step i or before it. */
  predicate AsksBack(env: Env, row: Session, wf: Workflow, i: nat, content: string, branch: string)
    requires i < |wf.steps|
  {
    var fired := FirstGuardrail(env, wf.guardrails, content, row.stepData[wf.steps[i].id := content], row, wf.steps[i].id);
    var requested := Requested(wf, i, fired, branch);
    requested.Some? && Position(wf, requested.value.0) <= i
  }

  /** The content is kept unless the submitted step is an MCP step and its request leads to it
      or before it; when the step does run again, the printed envelope is kept in its place. */
  lemma KeptUnlessRunAgain(env: Env, row: Session, wf: Workflow, i: nat, content: string, branch: string)
    requires WellFormedWorkflow(wf) && i < |wf.steps|
    ensures if RunsAgain(env, row, wf, i, content, branch)
            then IsMcpStep(wf, wf.steps[i].id) && AsksBack(env, row, wf, i, content, branch)
                 && exists envelope :: Kept(env, row, wf, i, content, branch) == env.dumps(envelope)
            else Kept(env, row, wf, i, content, branch) == content
  {
    hide Move, StoredIn, BackwardRefs, TargetsExist, FieldRules, UniqueIds, ForwardMcp;
    PositionOfId(wf, i);
    var fired := FirstGuardrail(env, wf.guardrails, content, row.stepData[wf.steps[i].id := content], row, wf.steps[i].id);
    var requested := Requested(wf, i, fired, branch);
    if requested.Some? {
      MoveKeeps(env, wf, requested.value.0, row.stepData, requested.value.1, wf.steps[i].id, content);
    }
  }

  lemma PositionOfId(wf: Workflow, i: nat)
    requires UniqueIds(wf) && i < |wf.steps|
    ensures FindStep(wf, wf.steps[i].id) == i
  {
    PositionOfIdAt(wf, i);
  }

  lemma CommitStores(cfg: Config, env: Env, db: Db, s: Sid, row: Session, i: nat, content: string, branch: string, now: int)
    requires WellFormedConfig(cfg) && Sound(db) && s in db.sessions && Rests(row, db.sessions[s]) && row.workflowType in cfg.workflows
    requires i == FindStep(cfg.workflows[row.workflowType], row.currentStep)
    ensures var wf := cfg.workflows[row.workflowType];
            var (b, reply) := Commit(cfg, env, db, s, row, wf, i, content, branch, now);
            ContentsStored(cfg, db, b, s, row.currentStep, Kept(env, row, wf, i, content, branch), reply)
  {
    hide Move, WriteMovement, AutoResume, AdvanceReply, ContentsStored, Sound, BackwardRefs, TargetsExist,
         FieldRules, UniqueIds, ForwardMcp, StoredIn, IsMcpStep;
    var wf := cfg.workflows[row.workflowType];
    var data := row.stepData[row.currentStep := content];
    var fired := FirstGuardrail(env, wf.guardrails, content, data, row, row.currentStep);
    var (b, reply) := Commit(cfg, env, db, s, row, wf, i, content, branch, now);
    var requested := Requested(wf, i, fired, branch);
    if requested.Some? {
      RouteStores(cfg, env, db, s, row, i, content, requested.value.0, requested.value.1, now);
      MoveKeeps(env, wf, requested.value.0, row.stepData, requested.value.1, row.currentStep, content);
    }
    NotAccepted(cfg, db, b, s, row.currentStep, Kept(env, row, wf, i, content, branch), reply);
  }

  lemma NotAccepted(cfg: Config, a: Db, b: Db, s: Sid, stepId: StepId, content: string, reply: Reply)
    ensures !reply.Advanced? && !reply.Finished? ==> ContentsStored(cfg, a, b, s, stepId, content, reply)
  {
  }

  lemma StoredFromResting(cfg: Config, a: Db, a': Db, b: Db, s: Sid, stepId: StepId, content: string, reply: Reply)
    requires AllRest(a, a') && a'.sessions.Keys == a.sessions.Keys && ContentsStored(cfg, a', b, s, stepId, content, reply)
    ensures ContentsStored(cfg, a, b, s, stepId, content, reply)
  {
    hide StoredIn;
  }

  /** What a submission leaves under its step, read off the tables before the call. */
  function KeptBySubmission(cfg: Config, env: Env, db: Db, s: Sid, stepId: StepId, content: string, branch: string): string
    requires WellFormedConfig(cfg)
  {
    if s !in db.sessions || db.sessions[s].workflowType !in cfg.workflows then content
    else
      var wf := cfg.workflows[db.sessions[s].workflowType];
      if FindStep(wf, stepId) < 0 then content else Kept(env, db.sessions[s], wf, FindStep(wf, stepId), content, branch)
  }

  /** An accepted submission stores exactly the submitted content under its step, or the envelope
      when the movement it asks for runs that step again, and nothing else but envelopes; when it
      completes a called child, the parent's call-step holds exactly the child's final artifact,
      which is the submitted content if the step is the child's last. */
  lemma AcceptedContentIsStored(cfg: Config, env: Env, db: Db, s: Sid, stepId: StepId, content: string, branch: string,
                                artifact: string, now: int)
    requires WellFormedConfig(cfg) && Sound(db)
    ensures var (b, reply) := SubmitStep(cfg, env, db, s, stepId, content, branch, artifact, now);
            ContentsStored(cfg, db, b, s, stepId, KeptBySubmission(cfg, env, db, s, stepId, content, branch), reply)
    ensures KeptBySubmission(cfg, env, db, s, stepId, content, branch) != content ==>
              && s in db.sessions && db.sessions[s].workflowType in cfg.workflows
              && var row, wf := db.sessions[s], cfg.workflows[db.sessions[s].workflowType]; var i := FindStep(wf, stepId);
                 && i >= 0 && IsMcpStep(wf, stepId)
                 && AsksBack(env, row, wf, i, content, branch) && RunsAgain(env, row, wf, i, content, branch)
  {
    hide SubmitStep, Commit, CommitBase, ContentsStored, Sound, UniqueIds, BackwardRefs, TargetsExist, FieldRules, ForwardMcp, Stale,
         Kept, RunsAgain, AsksBack;
    var (b, reply) := SubmitStep(cfg, env, db, s, stepId, content, branch, artifact, now);
    var kept := KeptBySubmission(cfg, env, db, s, stepId, content, branch);
    NotAccepted(cfg, db, b, s, stepId, kept, reply);
    AcceptedCommits(cfg, env, db, s, stepId, content, branch, artifact, now);
    if s in db.sessions && db.sessions[s].workflowType in cfg.workflows && FindStep(cfg.workflows[db.sessions[s].workflowType], stepId) >= 0 {
      var row, wf := db.sessions[s], cfg.workflows[db.sessions[s].workflowType];
      KeptUnlessRunAgain(env, row, wf, FindStep(wf, stepId), content, branch);
    }
    if reply.Advanced? || reply.Finished? {
      var row, wf := db.sessions[s], cfg.workflows[db.sessions[s].workflowType];
      var i := FindStep(wf, stepId);
      var base := CommitBase(db, s, wf.steps[i], artifact, content, now);
      BaseRests(db, s, wf.steps[i], artifact, content, now);
      SameShapeSound(db, base);
      CommitStores(cfg, env, base, s, row, i, content, branch, now);
      StoredFromResting(cfg, db, base, b, s, stepId, kept, reply);
    }
  }

  /** The final artifact is the submitted content when the submitted step is the last one. */
  lemma LastStepIsTheArtifact(wf: Workflow, a: StepData, data: StepData, content: string)
    requires |wf.steps| > 0 && StoredIn(wf, a, data, wf.steps[|wf.steps| - 1].id, content)
    ensures FinalArtifact(wf, data) == content
  {
  }

  /** ... and empty when the last step stored nothing, as when it was skipped. */
  lemma SkippedLastIsEmpty(wf: Workflow, data: StepData)
    requires |wf.steps| > 0 && wf.steps[|wf.steps| - 1].id !in data
    ensures FinalArtifact(wf, data) == ""
  {
  }

  /** Handing a child over to its parent always removes the child; the parent's call-step holds the
      artifact unless the skip loop raised, and then the parent's row is not written: the artifact
      is gone with the child. */
  lemma HandoverStoresUnlessBlocked(cfg: Config, env: Env, db: Db, child: Sid, p: Sid, childWf: Workflow, data: StepData, now: int)
    requires WellFormedConfig(cfg) && |childWf.steps| > 0 && child != p
    requires HandoverOf(cfg, env, db, child, p, FinalArtifact(childWf, data), now).Delivered?
    ensures var b := Propagate(cfg, env, db, child, p, childWf, data, now).0;
            var artifact := FinalArtifact(childWf, data);
            var row := db.sessions[p];
            var wf := cfg.workflows[row.workflowType];
            var i := FindStep(wf, row.currentStep);
            var next := if wf.steps[i].branches != [] then wf.steps[i].defaultBranch else Some(Stepping.NextInOrder(wf, i));
            && child !in b.sessions && p in b.sessions && next.Some?
            && var m := Move(env, wf, next.value, row.stepData[row.currentStep := artifact], false);
               if m.Blocked? then Rests(row, b.sessions[p])
               else StoredIn(wf, row.stepData, b.sessions[p].stepData, row.currentStep, artifact)
  {
    hide Move, WriteMovement, StoredIn, Stale, BackwardRefs, TargetsExist, UniqueIds, ForwardMcp;
    var artifact := FinalArtifact(childWf, data);
    var h := HandoverOf(cfg, env, db, child, p, artifact, now);
    var wf, i, unlinked := h.wf, h.i, Unlink(db, child, p, now);
    assert wf.steps[i] in wf.steps;
    UnlinkRests(db, child, p, now);
    var next := if wf.steps[i].branches != [] then wf.steps[i].defaultBranch.value else Stepping.NextInOrder(wf, i);
    MoveStores(env, wf, next, h.row.stepData, false, h.row.currentStep, artifact);
    MovementWrites(unlinked, p, Move(env, wf, next, h.row.stepData[h.row.currentStep := artifact], false), now);
  }
}
