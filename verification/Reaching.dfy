/** Tables that careful calls reach from empty ones, and what single calls leave behind, row by
    row. */
module Reaching {
  import opened Options
  import opened Workflows
  import opened References
  import opened InlineExecution
  import opened Tables
  import opened StackView
  import opened StackWrites
  import opened ToolSpecs
  import opened StackSafety
  import Sequences

  const EMPTY := Db(map[], map[], 0)

  // --- Reaching tables -------------------------------------------------------------------------------

  /** Some careful run of calls from empty tables, below the session cap, ends in these tables. */
  ghost predicate Reached(db: Db) {
    exists events: seq<Event> :: ReachedBy(events, db)
  }

  ghost predicate ReachedBy(events: seq<Event>, db: Db) {
    (forall e :: e in events ==> WellFormedConfig(e.cfg)) && CarefulRun(EMPTY, events) && After(EMPTY, events) == db
  }

  lemma EmptyIsReached()
    ensures Reached(EMPTY)
  {
    assert ReachedBy([], EMPTY);
  }

  lemma {:induction false} OneMoreCall(db: Db, events: seq<Event>, e: Event)
    requires forall x :: x in events ==> WellFormedConfig(x.cfg)
    requires CarefulRun(db, events) && WellFormedConfig(e.cfg) && Careful(After(db, events), e.call)
    ensures forall x :: x in events + [e] ==> WellFormedConfig(x.cfg)
    ensures CarefulRun(db, events + [e]) && After(db, events + [e]) == Apply(After(db, events), e).0
    decreases |events|
  {
    hide Careful, Apply, WellFormedConfig;
    if events == [] {
      assert events + [e] == [e];
      assert [e][1..] == [];
    } else {
      assert (events + [e])[1..] == events[1..] + [e];
      OneMoreCall(Apply(db, events[0]).0, events[1..], e);
    }
  }

  /** One more careful call reaches its outcome. */
  lemma CallReaches(db: Db, e: Event)
    requires Reached(db) && WellFormedConfig(e.cfg) && Careful(db, e.call)
    ensures Reached(Apply(db, e).0)
  {
    hide Careful, Apply, WellFormedConfig;
    var events :| ReachedBy(events, db);
    OneMoreCall(EMPTY, events, e);
    assert ReachedBy(events + [e], Apply(db, e).0);
  }

  lemma ReachedIsGood(db: Db) returns (v: View)
    requires Reached(db)
    ensures Good(db, v)
  {
    hide Good;
    var events :| ReachedBy(events, db);
    EmptyIsGood(0);
    v := RunsKeepStacks(EMPTY, map[], events);
  }

  lemma ReachedIsWellFormed(db: Db)
    requires Reached(db)
    ensures WellFormed(db)
  {
    var v := ReachedIsGood(db);
  }

  // --- What single calls leave behind -------------------------------------------------------------------

  /** A created row at its first step, which has been visited. */
  function Fresh(cfg: Config, env: Env, name: Name, parent: Option<Sid>, now: int): Session
    requires name in cfg.workflows && |cfg.workflows[name].steps| > 0
  {
    var first := cfg.workflows[name].steps[0].id;
    NewSession(name, first, parent, FingerprintFor(cfg, env, name), now).(visits := map[first := 1])
  }

  ghost predicate StartsPlainly(cfg: Config, name: Name)
    requires WellFormedConfig(cfg) && name in cfg.workflows
  {
    cfg.workflows[name].steps[0].action.Llm?
  }

  lemma StartOutcome(cfg: Config, env: Env, db: Db, name: Name, now: int)
    requires WellFormedConfig(cfg) && name != "" && name in cfg.workflows && StartsPlainly(cfg, name)
    requires CountActive(db) < MAX_ACTIVE
    ensures StartWorkflow(cfg, env, db, name, {}, now) ==
            (Db(db.sessions[db.nextSid := Fresh(cfg, env, name, None, now)], db.frames, db.nextSid + 1),
             Started(db.nextSid, cfg.workflows[name].steps[0].id))
  {
    hide UniqueIds, BackwardRefs, TargetsExist, FieldRules, ForwardMcp, CountActive;
    var wf := cfg.workflows[name];
    var first := wf.steps[0].id;
    PositionOfIdAt(wf, 0);
    assert AutoRun(env, wf, first, map[], []) == AutoResult(first, map[], [], false);
    RootOutcome(cfg, env, db, name, now);
    assert first != COMPLETE by {
      FirstIsNotComplete(wf);
    }
  }

  lemma FirstIsNotComplete(wf: Workflow)
    requires UniqueIds(wf) && |wf.steps| > 0
    ensures wf.steps[0].id != COMPLETE && wf.steps[0].id != WORKFLOW_CHANGED
  {
  }

  lemma RootOutcome(cfg: Config, env: Env, db: Db, name: Name, now: int)
    requires WellFormedConfig(cfg) && name in cfg.workflows
    ensures NewRoot(cfg, env, db, name, {}, now) ==
            Db(db.sessions[db.nextSid := Fresh(cfg, env, name, None, now)], db.frames, db.nextSid + 1)
  {
    hide UniqueIds, BackwardRefs, TargetsExist, FieldRules, ForwardMcp;
    NothingRemoved(db);
    var row := Fresh(cfg, env, name, None, now);
    assert db.sessions[db.nextSid := row.(visits := map[])][db.nextSid := row] == db.sessions[db.nextSid := row];
  }

  /** A row framed directly above p. */
  function Above(cfg: Config, env: Env, db: Db, name: Name, p: Sid, kind: FrameKind, step: Option<StepId>, now: int): Db
    requires name in cfg.workflows && |cfg.workflows[name].steps| > 0
  {
    Db(db.sessions[db.nextSid := Fresh(cfg, env, name, Some(p), now)],
       db.frames[db.nextSid := Frame(RootOf(db, p), DepthOf(db, p) + 1, kind, step)], db.nextSid + 1)
  }

  lemma SpawnOutcome(cfg: Config, env: Env, db: Db, name: Name, p: Sid, kind: FrameKind, step: Option<StepId>,
                     maxDepth: Option<nat>, now: int)
    requires WellFormedConfig(cfg) && name in cfg.workflows && !PushFull(db, {}, p, maxDepth)
    ensures SpawnChild(cfg, env, db, {}, name, p, kind, step, maxDepth, now) == Above(cfg, env, db, name, p, kind, step, now)
  {
    hide UniqueIds, BackwardRefs, TargetsExist, FieldRules, ForwardMcp, StackDepth, PushFull;
    NothingRemoved(db);
    var row := Fresh(cfg, env, name, Some(p), now);
    assert db.sessions[db.nextSid := row.(visits := map[])][db.nextSid := row] == db.sessions[db.nextSid := row];
  }

  lemma EnterOutcome(cfg: Config, env: Env, db: Db, p: Sid, stepId: StepId, target: Name, now: int)
    requires WellFormedConfig(cfg) && stepId != "" && Resolve(cfg, db, p, now).Ready? && p != db.nextSid
    requires EnterRefusal(cfg, env, db, p, Resolve(cfg, db, p, now).session, Resolve(cfg, db, p, now).wf, stepId).None?
    requires target in cfg.workflows && StartsPlainly(cfg, target)
    requires CallTargetOf(Resolve(cfg, db, p, now).wf, stepId) == Some(target)
    ensures EnterSubWorkflow(cfg, env, db, p, stepId, {}, now) ==
            (Above(cfg, env, WithRow(db, p, db.sessions[p].(called := Some(db.nextSid), updatedAt := now)), target, p, CallFrame, Some(stepId), now),
             Entered(db.nextSid, target, cfg.workflows[target].steps[0].id))
  {
    hide UniqueIds, BackwardRefs, TargetsExist, FieldRules, ForwardMcp, EnterRefusal, SpawnChild, Fresh, RootIn, DepthIn;
    SpawnOutcome(cfg, env, db, target, p, CallFrame, None, None, now);
    var row, n := db.sessions[p].(called := Some(db.nextSid), updatedAt := now), db.nextSid;
    assert CallChild(cfg, env, db, {}, target, p, stepId, now) ==
           LinkCalled(Above(cfg, env, db, target, p, CallFrame, None, now), p, n, stepId, now);
    LinkedAbove(cfg, env, db, p, stepId, target, now);
  }

  lemma LinkedAbove(cfg: Config, env: Env, db: Db, p: Sid, stepId: StepId, target: Name, now: int)
    requires target in cfg.workflows && |cfg.workflows[target].steps| > 0 && p in db.sessions && p != db.nextSid
    ensures LinkCalled(Above(cfg, env, db, target, p, CallFrame, None, now), p, db.nextSid, stepId, now) ==
            Above(cfg, env, WithRow(db, p, db.sessions[p].(called := Some(db.nextSid), updatedAt := now)), target, p, CallFrame, Some(stepId), now)
  {
    hide Fresh, RootIn, DepthIn;
    var n, child := db.nextSid, Fresh(cfg, env, target, Some(p), now);
    var row := db.sessions[p].(called := Some(n), updatedAt := now);
    assert db.sessions[n := child][p := row] == db.sessions[p := row][n := child];
    var frame := Frame(RootOf(db, p), DepthOf(db, p) + 1, CallFrame, None);
    assert db.frames[n := frame][n := frame.(callStep := Some(stepId))] == db.frames[n := frame.(callStep := Some(stepId))];
  }

  lemma PushOutcome(cfg: Config, env: Env, db: Db, s: Sid, name: Name, stepId: StepId, now: int)
    requires WellFormedConfig(cfg) && name != "" && stepId != "" && Resolve(cfg, db, s, now).Ready?
    requires PushRefusal(cfg, db, s, Resolve(cfg, db, s, now).session, name, stepId).None?
    requires name in cfg.workflows && StartsPlainly(cfg, name)
    ensures PushFlow(cfg, env, db, s, name, stepId, {}, now) ==
            (Above(cfg, env, db, name, s, DigressionFrame, Some(stepId), now), Pushed(db.nextSid, name, cfg.workflows[name].steps[0].id))
  {
    hide UniqueIds, BackwardRefs, TargetsExist, FieldRules, ForwardMcp, SpawnChild, Fresh, RootIn, DepthIn, StackDepth, CountActive, TopFrame;
    NothingRemoved(db);
    SpawnOutcome(cfg, env, db, name, s, DigressionFrame, Some(stepId), Some(MAX_STACK_DEPTH), now);
  }

  lemma FewActive(db: Db, ids: set<Sid>)
    requires db.sessions.Keys <= ids
    ensures CountActive(db) <= |ids|
  {
    Sequences.SubsetSize(ActiveIn(db.sessions), ids);
  }

  lemma FewFrames(db: Db, root: Sid, ids: set<Sid>)
    requires db.frames.Keys <= ids
    ensures StackDepth(db, root) <= |ids|
  {
    Sequences.SubsetSize(FramesOf(db, root), ids);
  }

  // --- Runs of such calls --------------------------------------------------------------------------------

  lemma StartReaches(cfg: Config, env: Env, db: Db, name: Name, now: int)
    requires WellFormedConfig(cfg) && name != "" && name in cfg.workflows && StartsPlainly(cfg, name)
    requires Reached(db) && CountActive(db) < MAX_ACTIVE
    ensures Reached(Db(db.sessions[db.nextSid := Fresh(cfg, env, name, None, now)], db.frames, db.nextSid + 1))
  {
    hide StartWorkflow, Fresh, Reached, CountActive, WellFormedConfig, StartsPlainly;
    StartOutcome(cfg, env, db, name, now);
    CallReaches(db, Event(cfg, env, now, Start(name)));
  }

  lemma EnterReaches(cfg: Config, env: Env, db: Db, p: Sid, stepId: StepId, target: Name, now: int)
    requires WellFormedConfig(cfg) && stepId != "" && Resolve(cfg, db, p, now).Ready? && p != db.nextSid
    requires EnterRefusal(cfg, env, db, p, Resolve(cfg, db, p, now).session, Resolve(cfg, db, p, now).wf, stepId).None?
    requires target in cfg.workflows && StartsPlainly(cfg, target)
    requires CallTargetOf(Resolve(cfg, db, p, now).wf, stepId) == Some(target)
    requires Reached(db)
    ensures Reached(Above(cfg, env, WithRow(db, p, db.sessions[p].(called := Some(db.nextSid), updatedAt := now)), target, p, CallFrame, Some(stepId), now))
  {
    hide EnterSubWorkflow, EnterRefusal, Fresh, Above, Reached, WellFormedConfig, StartsPlainly;
    EnterOutcome(cfg, env, db, p, stepId, target, now);
    CallReaches(db, Event(cfg, env, now, Enter(p, stepId)));
  }

  lemma PushReaches(cfg: Config, env: Env, db: Db, s: Sid, name: Name, stepId: StepId, now: int)
    requires WellFormedConfig(cfg) && name != "" && stepId != "" && Resolve(cfg, db, s, now).Ready?
    requires PushRefusal(cfg, db, s, Resolve(cfg, db, s, now).session, name, stepId).None?
    requires name in cfg.workflows && StartsPlainly(cfg, name)
    requires Reached(db)
    ensures Reached(Above(cfg, env, db, name, s, DigressionFrame, Some(stepId), now))
  {
    hide PushFlow, PushRefusal, Fresh, Above, Reached, WellFormedConfig, StartsPlainly;
    PushOutcome(cfg, env, db, s, name, stepId, now);
    CallReaches(db, Event(cfg, env, now, Push(s, name, stepId)));
  }
}
