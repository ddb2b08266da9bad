/** Output schemas over runs: whatever a session stores under a step meets the schema of that step,
    and a finished child leaves its caller exactly when its artifact does. */
module Schemas {
  import opened Options
  import opened Workflows
  import opened References
  import opened InlineExecution
  import opened Tables
  import opened ToolSpecs
  import opened StackSafety
  import opened Soundness
  import opened SessionMoves
  import opened ToolMoves
  import opened Handovers
  import opened Contents
  import opened Submissions
  import opened ToolEffects
  import opened Visits

  /** Every stored entry of a step of the workflow meets the schema of its step. */
  ghost predicate Conforming(env: Env, wf: Workflow, data: StepData) {
    forall i :: 0 <= i < |wf.steps| && wf.steps[i].id in data ==> Fits(env, wf.steps[i], data[wf.steps[i].id])
  }

  ghost predicate AllConform(wfs: Catalogue, env: Env, db: Db) {
    forall s :: s in db.sessions && db.sessions[s].workflowType in wfs ==>
      Conforming(env, wfs[db.sessions[s].workflowType], db.sessions[s].stepData)
  }

  /** Schema validation is the same; the rest may differ. */
  ghost predicate SameSchemas(e: Env, f: Env) {
    e.conforms == f.conforms && e.conformsArtifact == f.conformsArtifact
  }

  // --- One row --------------------------------------------------------------------------------------

  /** MCP steps carry no schema. */
  lemma McpFits(env: Env, wf: Workflow, i: nat, entry: string)
    requires FieldRules(wf) && i < |wf.steps| && wf.steps[i].action.McpToolCall?
    ensures Fits(env, wf.steps[i], entry)
  {
    assert wf.steps[i] in wf.steps;
  }

  lemma StoredConforms(env: Env, wf: Workflow, a: StepData, b: StepData, i: nat)
    requires WellFormedWorkflow(wf) && Conforming(env, wf, a) && i < |wf.steps| && wf.steps[i].id in b
    requires StoredIn(wf, a, b, wf.steps[i].id, b[wf.steps[i].id])
    requires Fits(env, wf.steps[i], b[wf.steps[i].id]) || wf.steps[i].action.McpToolCall?
    ensures Conforming(env, wf, b)
  {
    hide Fits, BackwardRefs, TargetsExist, FieldRules, ForwardMcp;
    forall j | 0 <= j < |wf.steps| && wf.steps[j].id in b ensures Fits(env, wf.steps[j], b[wf.steps[j].id]) {
      PositionOfIdAt(wf, j);
      if wf.steps[j].action.McpToolCall? {
        McpFits(env, wf, j, b[wf.steps[j].id]);
      }
    }
  }

  lemma MovedConforms(env: Env, wf: Workflow, i: nat, data: StepData, content: string, next: StepId, forced: bool)
    requires WellFormedWorkflow(wf) && i < |wf.steps| && Conforming(env, wf, data) && Fits(env, wf.steps[i], content)
    ensures var m := Move(env, wf, next, data[wf.steps[i].id := content], forced);
            !m.Blocked? ==> Conforming(env, wf, m.data)
  {
    hide Fits, Move, StoredIn, Conforming, BackwardRefs, TargetsExist, FieldRules, ForwardMcp;
    PositionOfIdAt(wf, i);
    MoveKeeps(env, wf, next, data, forced, wf.steps[i].id, content);
    var m := Move(env, wf, next, data[wf.steps[i].id := content], forced);
    if !m.Blocked? {
      StoredConforms(env, wf, data, m.data, i);
    }
  }

  lemma FreshConforms(cfg: Config, env: Env, row: Session)
    requires WellFormedConfig(cfg) && FreshRow(cfg, env, row)
    ensures Conforming(env, cfg.workflows[row.workflowType], row.stepData)
  {
    hide AutoRun, Fits, FingerprintFor, ExecutedBetween, BackwardRefs, TargetsExist, FieldRules, ForwardMcp;
    var wf := cfg.workflows[row.workflowType];
    var r := AutoRun(env, wf, wf.steps[0].id, map[], []);
    AutoRunFrom(env, wf, wf.steps[0].id, map[]);
    ExecutedAreMcp(wf, map[], Position(wf, wf.steps[0].id), r);
    forall j | 0 <= j < |wf.steps| && wf.steps[j].id in row.stepData ensures Fits(env, wf.steps[j], row.stepData[wf.steps[j].id]) {
      PositionOfIdAt(wf, j);
      McpFits(env, wf, j, row.stepData[wf.steps[j].id]);
    }
  }

  lemma MoveConforms(cfg: Config, env: Env, a: Session, b: Session)
    requires WellFormedConfig(cfg) && Moves(cfg, env, a, b) && a.workflowType in cfg.workflows
    requires Conforming(env, cfg.workflows[a.workflowType], a.stepData)
    ensures b.workflowType == a.workflowType && Conforming(env, cfg.workflows[a.workflowType], b.stepData)
  {
    hide Fits, Move, Stale, RoutesTo, BackwardRefs, TargetsExist, FieldRules, ForwardMcp;
    var wf := cfg.workflows[a.workflowType];
    var i := FindStep(wf, a.currentStep);
    if !Rests(a, b) && !Marked(cfg, a, b) {
      if Stores(env, wf, a, b) {
        StoredOne(env, wf, a.stepData, b.stepData, i);
      } else {
        var content, next, forced :| Advances(env, wf, a, b, content, next, forced);
        MovedConforms(env, wf, i, a.stepData, content, next, forced);
      }
    }
  }

  lemma StoredOne(env: Env, wf: Workflow, a: StepData, b: StepData, i: nat)
    requires WellFormedWorkflow(wf) && Conforming(env, wf, a) && i < |wf.steps| && wf.steps[i].id in b
    requires b == a[wf.steps[i].id := b[wf.steps[i].id]] && Fits(env, wf.steps[i], b[wf.steps[i].id])
    ensures Conforming(env, wf, b)
  {
    hide Fits, BackwardRefs, TargetsExist, FieldRules, ForwardMcp;
  }

  // --- Whole runs -----------------------------------------------------------------------------------

  lemma ConformingSameSchemas(e: Env, f: Env, wf: Workflow, data: StepData)
    requires SameSchemas(e, f)
    ensures Conforming(e, wf, data) <==> Conforming(f, wf, data)
  {
    assert forall step, content :: Fits(e, step, content) <==> Fits(f, step, content);
  }

  lemma RowConforms(e: Event, a: Db, b: Db, s: Sid)
    requires WellFormedConfig(e.cfg) && s in b.sessions && CallMoves(e, a, b, s) && AllConform(e.cfg.workflows, e.env, a)
    requires b.sessions[s].workflowType in e.cfg.workflows
    ensures Conforming(e.env, e.cfg.workflows[b.sessions[s].workflowType], b.sessions[s].stepData)
  {
    hide Moves, FreshRow, Fits, Stale, StepsAfter, UniqueIds, BackwardRefs, TargetsExist, FieldRules, ForwardMcp;
    if s !in a.sessions {
      FreshConforms(e.cfg, e.env, b.sessions[s]);
    } else if Moves(e.cfg, e.env, a.sessions[s], b.sessions[s]) {
      MovesType(e.cfg, e.env, a.sessions[s], b.sessions[s]);
      MoveConforms(e.cfg, e.env, a.sessions[s], b.sessions[s]);
    }
  }

  lemma MovesType(cfg: Config, env: Env, a: Session, b: Session)
    requires WellFormedConfig(cfg) && Moves(cfg, env, a, b)
    ensures b.workflowType == a.workflowType
  {
  }

  lemma CallConforms(env: Env, db: Db, t: Tick)
    requires WellFormedConfig(t.event.cfg) && Sound(db) && SameSchemas(t.event.env, env)
    requires AllConform(t.event.cfg.workflows, env, db)
    ensures AllConform(t.event.cfg.workflows, env, AfterTick(db, t))
  {
    hide CallMoves, Conforming;
    var e, wfs, b := t.event, t.event.cfg.workflows, AfterTick(db, t);
    ApplyMoves(db, e, t.victims);
    forall s | s in db.sessions && db.sessions[s].workflowType in wfs
      ensures Conforming(e.env, wfs[db.sessions[s].workflowType], db.sessions[s].stepData)
    {
      ConformingSameSchemas(e.env, env, wfs[db.sessions[s].workflowType], db.sessions[s].stepData);
    }
    forall s | s in b.sessions && b.sessions[s].workflowType in wfs
      ensures Conforming(env, wfs[b.sessions[s].workflowType], b.sessions[s].stepData)
    {
      RowConforms(e, db, b, s);
      ConformingSameSchemas(e.env, env, wfs[b.sessions[s].workflowType], b.sessions[s].stepData);
    }
  }

  lemma {:induction false} RunsConform(wfs: Catalogue, env: Env, db: Db, ticks: seq<Tick>)
    requires Sound(db) && Loaded(ticks) && AllConform(wfs, env, db)
    requires forall t :: t in ticks ==> t.event.cfg.workflows == wfs && SameSchemas(t.event.env, env)
    ensures AllConform(wfs, env, AfterAll(db, ticks))
    decreases |ticks|
  {
    hide AllConform, Sound, SameSchemas, ApplyEvicting;
    if ticks != [] {
      CallConforms(env, db, ticks[0]);
      ApplySound(db, ticks[0].event, ticks[0].victims);
      RunsConform(wfs, env, AfterTick(db, ticks[0]), ticks[1..]);
    }
  }

  /** Over every run from empty tables, evictions included, on unchanged workflows and schemas: a
      call-step with an output schema only ever holds an entry its schema accepts, so does any other
      step without intermediate artifacts, and a step with them holds one that the schema of its
      output artifact accepts. */
  lemma StoredEntriesConform(wfs: Catalogue, env: Env, ticks: seq<Tick>, s: Sid, step: Step)
    requires Loaded(ticks) && forall t :: t in ticks ==> t.event.cfg.workflows == wfs && SameSchemas(t.event.env, env)
    requires s in AfterAll(Db(map[], map[], 0), ticks).sessions
    requires var row := AfterAll(Db(map[], map[], 0), ticks).sessions[s];
             row.workflowType in wfs && step in wfs[row.workflowType].steps && step.id in row.stepData
    ensures var entry := AfterAll(Db(map[], map[], 0), ticks).sessions[s].stepData[step.id];
            && (step.outputSchema.Some? && (step.call.Some? || step.artifacts == []) ==> env.conforms(step.outputSchema.value, entry))
            && (step.artifacts != [] ==>
                  exists d :: d in step.artifacts && d.id == step.outputFrom && env.conformsArtifact(d.schema, entry))
  {
    hide AfterTick, SameSchemas, Fits, UniqueIds, BackwardRefs, TargetsExist, FieldRules, ForwardMcp;
    RunsConform(wfs, env, Db(map[], map[], 0), ticks);
    assert ticks[0] in ticks;
    EntryFits(env, wfs[AfterAll(Db(map[], map[], 0), ticks).sessions[s].workflowType],
              AfterAll(Db(map[], map[], 0), ticks).sessions[s].stepData, step);
  }

  lemma EntryFits(env: Env, wf: Workflow, data: StepData, step: Step)
    requires WellFormedWorkflow(wf) && Conforming(env, wf, data) && step in wf.steps && step.id in data
    ensures Fits(env, step, data[step.id]) && (step.call.Some? ==> step.artifacts == [])
  {
  }

  // --- The hand-over of a finished child --------------------------------------------------------------

  lemma BaseOnlyRow(db: Db, c: Sid, step: Step, artifact: string, content: string, now: int)
    ensures OnlyRow(db, CommitBase(db, c, step, artifact, content, now), c)
  {
    hide FindArtifact, OnlyRow, StoreArtifact;
    SameIsOnlyRow(db, c);
    StoreArtifactOnlyRow(db, c, step.id, artifact, content, now);
  }

  /** A finishing submission comes to the hand-over, on tables in which only the row of c was written. */
  lemma FinishResumes(cfg: Config, env: Env, db: Db, c: Sid, p: Sid, stepId: StepId, content: string, branch: string,
                      artifact: string, now: int) returns (db1: Db)
    requires WellFormedConfig(cfg) && ParentOf(db, c) == Some(p)
    requires FinishOf(cfg, env, db, c, stepId, content, branch, artifact, now).Some?
    ensures c in db.sessions && OnlyRow(db, db1, c)
    ensures var f := FinishOf(cfg, env, db, c, stepId, content, branch, artifact, now).value;
            SubmitStep(cfg, env, db, c, stepId, content, branch, artifact, now) == AutoResume(cfg, env, db1, c, p, f.wf, f.data, now)
  {
    hide Move, WriteMovement, AutoResume, FailUpwards, OnlyRow, StoreArtifact, ParentOf, TopFrame, Stale, FirstGuardrail, Requested;
    hide UniqueIds, BackwardRefs, TargetsExist, FieldRules, ForwardMcp;
    var row, wf := db.sessions[c], cfg.workflows[db.sessions[c].workflowType];
    var i := FindStep(wf, stepId);
    var m := OwnMove(env, row, wf, i, content, branch).value;
    var base := if wf.steps[i].artifacts != [] then CommitBase(db, c, wf.steps[i], artifact, content, now) else db;
    SameIsOnlyRow(db, c);
    BaseOnlyRow(db, c, wf.steps[i], artifact, content, now);
    db1 := WriteMovement(base, c, m, now);
    MovementOnlyRow(base, c, m, now);
    OnlyRowThen(db, base, db1, c);
    OnlyRowParent(db, db1, c);
  }

  /** What a hand-over writes: the child is gone from both tables, its caller has no child, the artifact
      under its call-step and goes where that step leads; nothing else changes. A movement that
      the skip loop blocks leaves the caller where it was, without the artifact. */
  ghost predicate HandedTo(env: Env, a: Db, b: Db, c: Sid, p: Sid, wf: Workflow, i: nat, artifact: string, now: int)
    requires p in a.sessions && i < |wf.steps| && UniqueIds(wf) && ForwardMcp(wf)
  {
    var row := a.sessions[p];
    var m := Move(env, wf, AfterCall(wf, i), row.stepData[row.currentStep := artifact], false);
    && p in b.sessions && Carried(row.(called := None, updatedAt := now), b.sessions[p], m, now)
    && (forall o :: o in b.sessions <==> o in a.sessions && o != c)
    && (forall o :: o in b.sessions && o != p ==> b.sessions[o] == a.sessions[o])
    && (forall f :: f in b.frames <==> f in a.frames && f != c)
    && (forall f :: f in b.frames ==> b.frames[f] == a.frames[f])
  }

  lemma UnlinkWrites(db: Db, c: Sid, p: Sid, now: int)
    requires Sound(db) && ParentOf(db, c) == Some(p) && p in db.sessions && c in db.sessions && c != p
    ensures var b := Unlink(db, c, p, now);
            && b.sessions == (db.sessions - {c})[p := db.sessions[p].(called := None, updatedAt := now)]
            && (forall f :: f in b.frames <==> f in db.frames && f != c)
            && (forall f :: f in b.frames ==> b.frames[f] == db.frames[f])
  {
    assert c in db.frames;
    AboveItsParent(db, c, p);
  }

  lemma AboveItsParent(db: Db, c: Sid, p: Sid)
    requires Sound(db) && ParentOf(db, c) == Some(p)
    ensures c in db.frames && IsTopFrame(db, p, c)
    ensures forall f :: f in db.frames && IsTopFrame(db, p, f) ==> f == c
  {
  }

  lemma HandsTo(cfg: Config, env: Env, db: Db, c: Sid, p: Sid, f: Finish, now: int)
    requires WellFormedConfig(cfg) && WellFormedWorkflow(f.wf) && Sound(db) && ParentOf(db, c) == Some(p) && c in db.sessions && c != p
    requires c in db.frames && db.frames[c].kind == CallFrame && Takes(cfg, env, db, p, FinalArtifact(f.wf, f.data), now)
    ensures p in db.sessions && db.sessions[p].workflowType in cfg.workflows
    ensures var wf := cfg.workflows[db.sessions[p].workflowType];
            var i := FindStep(wf, db.sessions[p].currentStep);
            i >= 0 && HandedTo(env, db, AutoResume(cfg, env, db, c, p, f.wf, f.data, now).0, c, p, wf, i, FinalArtifact(f.wf, f.data), now)
  {
    hide Move, WriteMovement, FinalArtifact, Unlink, Carried, ParentOf, Sound, Stale, UniqueIds, BackwardRefs, TargetsExist, ForwardMcp;
    var artifact := FinalArtifact(f.wf, f.data);
    DeliveredIff(cfg, env, db, c, p, artifact, now);
    var row, wf := db.sessions[p], cfg.workflows[db.sessions[p].workflowType];
    var i := FindStep(wf, row.currentStep);
    assert wf.steps[i] in wf.steps;
    UnlinkWrites(db, c, p, now);
    var unlinked := Unlink(db, c, p, now);
    MovementCarried(unlinked, p, Move(env, wf, AfterCall(wf, i), row.stepData[row.currentStep := artifact], false), now);
  }

  /** A called child whose submission finishes it, under a caller that resolves and stands at a
      call-step: when that step has no output schema, or its schema accepts the child's final
      artifact, the child is gone after the submission and handed over; otherwise it stays, and the
      caller is escalated where it stands with nothing stored. */
  lemma FinishedChildGoesIff(cfg: Config, env: Env, db: Db, c: Sid, p: Sid, stepId: StepId, content: string, branch: string,
                             artifact: string, now: int)
    requires WellFormedConfig(cfg) && Sound(db) && ParentOf(db, c) == Some(p) && p in db.sessions && c in db.frames
    requires db.frames[c].kind == CallFrame && FinishOf(cfg, env, db, c, stepId, content, branch, artifact, now).Some?
    requires Live(cfg, db.sessions[p])
    requires var wf := cfg.workflows[db.sessions[p].workflowType]; var i := FindStep(wf, db.sessions[p].currentStep);
             i >= 0 && wf.steps[i].call.Some?
    ensures var (b, reply) := SubmitStep(cfg, env, db, c, stepId, content, branch, artifact, now);
            var f := FinishOf(cfg, env, db, c, stepId, content, branch, artifact, now).value;
            var wf, row := cfg.workflows[db.sessions[p].workflowType], db.sessions[p];
            var schema := wf.steps[FindStep(wf, row.currentStep)].outputSchema;
            if schema.None? || env.conforms(schema.value, FinalArtifact(f.wf, f.data)) then
              HandedTo(env, db, b, c, p, wf, FindStep(wf, row.currentStep), FinalArtifact(f.wf, f.data), now)
            else c in b.sessions && p in b.sessions && b.sessions[p] == row.(escalation := Some("called_workflow_failed"), updatedAt := now)
                 && reply == Error(SessionEscalated)
  {
    hide SubmitStep, FinishOf, FinalArtifact, AdvanceParent, Move, Carried, ParentOf, Sound, Stale;
    hide UniqueIds, BackwardRefs, TargetsExist, FieldRules, ForwardMcp;
    NeighboursUnique(db, c);
    var f := FinishOf(cfg, env, db, c, stepId, content, branch, artifact, now).value;
    var db1 := FinishResumes(cfg, env, db, c, p, stepId, content, branch, artifact, now);
    OnlyRowParent(db, db1, c);
    DeliveredIff(cfg, env, db1, c, p, FinalArtifact(f.wf, f.data), now);
    if Takes(cfg, env, db1, p, FinalArtifact(f.wf, f.data), now) {
      OnlyRowKeeps(db, db1, c);
      HandsTo(cfg, env, db1, c, p, f, now);
    }
  }

  /** Under a caller that does not resolve, or does not stand at a call-step, a finished called child
      stays: the reply is the code of the caller's guard that refuses, or the caller is escalated for
      the drift; nothing is stored in it. */
  lemma FinishedChildStays(cfg: Config, env: Env, db: Db, c: Sid, p: Sid, stepId: StepId, content: string, branch: string,
                           artifact: string, now: int)
    requires WellFormedConfig(cfg) && Sound(db) && ParentOf(db, c) == Some(p) && c in db.frames
    requires db.frames[c].kind == CallFrame && FinishOf(cfg, env, db, c, stepId, content, branch, artifact, now).Some?
    ensures var (b, reply) := SubmitStep(cfg, env, db, c, stepId, content, branch, artifact, now);
            if !AllPass(SessionGuards(cfg, db, p)) then
              && Refuses(SessionGuards(cfg, db, p), reply) && c in b.sessions && b.frames == db.frames
              && (p in db.sessions ==> p in b.sessions && (b.sessions[p] == db.sessions[p] || Marked(cfg, db.sessions[p], b.sessions[p])))
            else
              && Known(cfg, db, p)
              && var wf := cfg.workflows[db.sessions[p].workflowType];
                 var i := FindStep(wf, db.sessions[p].currentStep);
                 i < 0 || wf.steps[i].call.None? ==>
                   && reply == Error(SessionEscalated) && c in b.sessions && b.frames == db.frames && p in b.sessions
                   && b.sessions[p] == db.sessions[p].(escalation := Some("sub_workflow_state_drift"), updatedAt := now)
  {
    hide SubmitStep, FinishOf, FinalArtifact, AdvanceParent, SessionGuards, Refuses, AllPass, ParentOf, Sound, SetStep, FailUpwards;
    hide UniqueIds, BackwardRefs, TargetsExist, FieldRules, ForwardMcp;
    NeighboursUnique(db, c);
    var db1 := FinishResumes(cfg, env, db, c, p, stepId, content, branch, artifact, now);
    OnlyRowParent(db, db1, c);
    SessionGuardsMean(cfg, db, p, now);
    RefusedGuards(cfg, db, p, now);
    SameGuards(cfg, db, db1, c, p, now);
    ResolveMarked(cfg, db1, p, now);
  }

  /** Resolving p reads nothing of c. */
  lemma SameGuards(cfg: Config, a: Db, b: Db, c: Sid, p: Sid, now: int)
    requires OnlyRow(a, b, c) && c != p
    ensures p in a.sessions <==> p in b.sessions
    ensures p in a.sessions ==> b.sessions[p] == a.sessions[p]
    ensures var x, y := Resolve(cfg, a, p, now), Resolve(cfg, b, p, now);
            if x.Refused? then y.Refused? && y.code == x.code else y == x
  {
    hide SetStep;
  }

  lemma ResolveMarked(cfg: Config, db: Db, p: Sid, now: int)
    ensures var a := Resolve(cfg, db, p, now);
            a.Refused? ==>
              && a.db.frames == db.frames && a.db.sessions.Keys == db.sessions.Keys
              && (p in db.sessions ==> a.db.sessions[p] == db.sessions[p] || Marked(cfg, db.sessions[p], a.db.sessions[p]))
  {
  }
}
