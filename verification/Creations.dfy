/** What starting a workflow, entering a called one and pushing a digression create, and what
    popping and deleting remove: the guards in their order, and every row that is written. */
module Creations {
  import opened Options
  import opened Workflows
  import opened References
  import opened InlineExecution
  import opened Tables
  import opened Sequences
  import opened ToolSpecs
  import opened Soundness
  import opened SessionMoves
  import Submissions
  import Visits
  import opened ToolEffects

  /** The stamp of a new session: the live fingerprint, or the digest of its document. */
  function Stamp(cfg: Config, env: Env, name: Name): string
    requires name in cfg.workflows
  {
    if name in cfg.fingerprints then cfg.fingerprints[name] else env.digest(cfg.workflows[name])
  }

  function OpenSessions(db: Db): set<Sid> {
    set s | s in db.sessions && db.sessions[s].currentStep != "__complete__"
  }

  /** Apart from the new session c, exactly the evicted ones are gone, and of the others only the
      row of `touched` may differ. */
  ghost predicate RestKept(a: Db, b: Db, c: Sid, victims: set<Sid>, touched: Option<Sid>) {
    && (forall o :: o != c ==> (o in b.sessions <==> o in a.sessions && o !in victims))
    && (forall o :: o != c && o in b.sessions && Some(o) != touched ==> b.sessions[o] == a.sessions[o])
    && (forall f :: f != c ==> (f in b.frames <==> f in a.frames && f !in victims))
    && (forall f :: f != c && f in b.frames ==> b.frames[f] == a.frames[f])
  }

  /** A new session at the first step of its workflow, which it has visited once. */
  ghost predicate Fresh(cfg: Config, env: Env, b: Db, c: Sid, name: Name, parent: Option<Sid>, now: int)
    requires WellFormedConfig(cfg) && name in cfg.workflows
  {
    var first := cfg.workflows[name].steps[0].id;
    c in b.sessions && b.nextSid == c + 1
    && b.sessions[c] == Session(name, first, map[], map[], map[first := 1], None, map[], now, None, None, parent, Stamp(cfg, env, name))
  }

  /** ... framed one level above its parent, or above nothing when the parent was just evicted. */
  ghost predicate FramedAbove(a: Db, b: Db, c: Sid, p: Sid, victims: set<Sid>, kind: FrameKind, callStep: Option<StepId>) {
    c in b.frames && b.frames[c] == if p in victims then Frame(p, 1, kind, callStep) else Frame(RootOf(a, p), DepthOf(a, p) + 1, kind, callStep)
  }

  lemma SpawnMeans(cfg: Config, env: Env, db: Db, victims: set<Sid>, name: Name, p: Sid, kind: FrameKind, callStep: Option<StepId>,
                   maxDepth: Option<nat>, now: int)
    requires WellFormedConfig(cfg) && name in cfg.workflows && Sound(db) && !PushFull(db, victims, p, maxDepth)
    ensures var b := SpawnChild(cfg, env, db, victims, name, p, kind, callStep, maxDepth, now);
            && Fresh(cfg, env, b, db.nextSid, name, Some(p), now)
            && FramedAbove(db, b, db.nextSid, p, victims, kind, callStep)
            && RestKept(db, b, db.nextSid, victims, None)
  {
    hide PushFull, CreateChild, FramedAbove, RestKept, Sound, UniqueIds, BackwardRefs, TargetsExist, FieldRules, ForwardMcp;
    var first, fp := cfg.workflows[name].steps[0].id, FingerprintFor(cfg, env, name);
    CreateMeans(db, victims, name, first, p, kind, callStep, maxDepth, fp, now);
    var created := CreateChild(db, victims, name, first, p, kind, callStep, maxDepth, fp, now);
    VisitedOnce(created, db.nextSid, first, now);
    OneMoreRow(db, created, IncVisit(created, db.nextSid, first, now), db.nextSid, p, victims, kind, callStep);
  }

  lemma VisitedOnce(db: Db, c: Sid, first: StepId, now: int)
    requires c in db.sessions && db.sessions[c].visits == map[]
    ensures IncVisit(db, c, first, now) == db.(sessions := db.sessions[c := db.sessions[c].(visits := map[first := 1], updatedAt := now)])
  {
    assert map[][first := 1] == map[first := 1];
  }

  /** Writing the row of the new session itself. */
  lemma OneMoreRow(a: Db, b: Db, d: Db, c: Sid, p: Sid, victims: set<Sid>, kind: FrameKind, callStep: Option<StepId>)
    requires RestKept(a, b, c, victims, None) && FramedAbove(a, b, c, p, victims, kind, callStep)
    requires c in b.sessions && c in d.sessions && d == b.(sessions := b.sessions[c := d.sessions[c]])
    ensures RestKept(a, d, c, victims, None) && FramedAbove(a, d, c, p, victims, kind, callStep)
  {
  }

  lemma CreateMeans(db: Db, victims: set<Sid>, name: Name, first: StepId, p: Sid, kind: FrameKind, callStep: Option<StepId>,
                    maxDepth: Option<nat>, fp: string, now: int)
    requires Sound(db) && !PushFull(db, victims, p, maxDepth)
    ensures var b := CreateChild(db, victims, name, first, p, kind, callStep, maxDepth, fp, now);
            && b.nextSid == db.nextSid + 1 && db.nextSid in b.sessions && db.nextSid in b.frames
            && b.sessions[db.nextSid] == Session(name, first, map[], map[], map[], None, map[], now, None, None, Some(p), fp)
            && FramedAbove(db, b, db.nextSid, p, victims, kind, callStep)
            && RestKept(db, b, db.nextSid, victims, None)
  {
    hide PushFull, Sound;
  }

  // --- enter_sub_workflow --------------------------------------------------------------------------------

  ghost function EnterGuards(cfg: Config, env: Env, db: Db, p: Sid, row: Session, wf: Workflow, stepId: StepId): seq<Guard> {
    var i := FindStep(wf, stepId);
    [Guard(row.currentStep == "__complete__", WorkflowComplete),
     Guard(row.escalation.Some?, SessionEscalated),
     Guard(row.currentStep != stepId, OutOfOrder),
     Guard(i < 0 || wf.steps[i].call.None?, InvalidArgument),
     Guard(FrameAbove(db, p), SubWorkflowPending),
     Guard(i >= 0 && wf.steps[i].call.Some? && wf.steps[i].call.value !in cfg.workflows, WorkflowNotLoaded),
     Guard(i >= 0 && wf.steps[i].callContextFrom.Some?
           && !exists v :: v != Null && Holds(env, row.stepData, wf.steps[i].callContextFrom.value, v), InvalidArgument)]
  }

  ghost function AllEnterGuards(cfg: Config, env: Env, db: Db, p: Sid, stepId: StepId): seq<Guard> {
    GuardsOf(stepId == "", cfg, db, p,
             if Known(cfg, db, p) then EnterGuards(cfg, env, db, p, db.sessions[p], cfg.workflows[db.sessions[p].workflowType], stepId) else [])
  }

  lemma ContextHeld(env: Env, ref: Ref, data: StepData)
    ensures var r := ResolveRef(env, ref, data, {});
            (r.Found? && r.value != Null) <==> exists v :: v != Null && Holds(env, data, ref, v)
  {
    hide ResolveRef, Holds;
    ResolveFinds(env, ref, data, {});
  }

  lemma EnterGuardsMean(cfg: Config, env: Env, db: Db, p: Sid, row: Session, wf: Workflow, stepId: StepId)
    ensures var g := EnterGuards(cfg, env, db, p, row, wf, stepId);
            match EnterRefusal(cfg, env, db, p, row, wf, stepId)
            case Some(code) => Refuses(g, Error(code)) && !AllPass(g)
            case None => AllPass(g)
  {
    hide TopFrame, FrameAbove, ResolveRef, Holds;
    var g, i := EnterGuards(cfg, env, db, p, row, wf, stepId), FindStep(wf, stepId);
    FrameAboveIsTop(db, p);
    if i >= 0 && wf.steps[i].callContextFrom.Some? {
      ContextHeld(env, wf.steps[i].callContextFrom.value, row.stepData);
    }
    var k := SomeFailsFirst(g);
    if FailsFirst(g, k) {
      assert k == 0 || k == 1 || k == 2 || k == 3 || k == 4 || k == 5 || k == 6;
      assert (k > 0 ==> !g[0].fails) && (k > 1 ==> !g[1].fails) && (k > 2 ==> !g[2].fails) && (k > 3 ==> !g[3].fails)
             && (k > 4 ==> !g[4].fails) && (k > 5 ==> !g[5].fails);
    } else {
      assert !g[0].fails && !g[1].fails && !g[2].fails && !g[3].fails && !g[4].fails && !g[5].fails && !g[6].fails;
    }
  }

  /** What an accepted call writes: a fresh child at the first step of the called workflow, framed
      above its caller with the call-step, and the caller's link to it. A caller evicted to make
      room for its own child is gone, and the child is left without a call-step. */
  ghost predicate Called(cfg: Config, env: Env, a: Db, b: Db, p: Sid, stepId: StepId, target: Name, victims: set<Sid>, now: int)
    requires WellFormedConfig(cfg) && target in cfg.workflows && p in a.sessions
  {
    var c := a.nextSid;
    && Fresh(cfg, env, b, c, target, Some(p), now) && RestKept(a, b, c, victims, Some(p))
    && FramedAbove(a, b, c, p, victims, CallFrame, if p in victims then None else Some(stepId))
    && (p !in victims ==> p in b.sessions && b.sessions[p] == a.sessions[p].(called := Some(c), updatedAt := now))
  }

  lemma CallMeans(cfg: Config, env: Env, db: Db, victims: set<Sid>, target: Name, p: Sid, stepId: StepId, now: int)
    requires WellFormedConfig(cfg) && target in cfg.workflows && Sound(db) && p in db.sessions
    ensures Called(cfg, env, db, CallChild(cfg, env, db, victims, target, p, stepId, now), p, stepId, target, victims, now)
  {
    hide SpawnChild, Sound, LinkCalled, Fresh, RestKept, Called, WellFormedWorkflow;
    assert !PushFull(db, victims, p, None);
    BelowNext(db, p);
    SpawnMeans(cfg, env, db, victims, target, p, CallFrame, None, None, now);
    var spawned := SpawnChild(cfg, env, db, victims, target, p, CallFrame, None, None, now);
    LinkMeans(spawned, p, db.nextSid, stepId, now);
    LinkedIsCalled(cfg, env, db, spawned, p, stepId, target, victims, now);
  }

  lemma LinkedIsCalled(cfg: Config, env: Env, a: Db, b: Db, p: Sid, stepId: StepId, target: Name, victims: set<Sid>, now: int)
    requires WellFormedConfig(cfg) && target in cfg.workflows && p in a.sessions && p < a.nextSid
    requires Fresh(cfg, env, b, a.nextSid, target, Some(p), now) && RestKept(a, b, a.nextSid, victims, None)
    requires FramedAbove(a, b, a.nextSid, p, victims, CallFrame, None)
    ensures Called(cfg, env, a, LinkCalled(b, p, a.nextSid, stepId, now), p, stepId, target, victims, now)
  {
    hide LinkCalled, RootIn, DepthIn, Stamp, UniqueIds, BackwardRefs, TargetsExist, FieldRules, ForwardMcp;
    LinkMeans(b, p, a.nextSid, stepId, now);
  }

  lemma LinkMeans(db: Db, p: Sid, c: Sid, stepId: StepId, now: int)
    requires c in db.frames
    ensures LinkCalled(db, p, c, stepId, now) ==
            if p !in db.sessions then db
            else Db(db.sessions[p := db.sessions[p].(called := Some(c), updatedAt := now)],
                    db.frames[c := db.frames[c].(callStep := Some(stepId))], db.nextSid)
  {
  }

  lemma BelowNext(db: Db, p: Sid)
    requires Sound(db) && p in db.sessions
    ensures p < db.nextSid
  {
  }

  /** Entering is refused by the first guard that fails; otherwise the child is created and named. */
  lemma EnterMeans(cfg: Config, env: Env, db: Db, p: Sid, stepId: StepId, victims: set<Sid>, now: int)
    requires WellFormedConfig(cfg) && Sound(db)
    ensures var (b, reply) := EnterSubWorkflow(cfg, env, db, p, stepId, victims, now);
            var guards := AllEnterGuards(cfg, env, db, p, stepId);
            if AllPass(guards) then
              && Known(cfg, db, p)
              && var wf := cfg.workflows[db.sessions[p].workflowType];
                 var i := FindStep(wf, stepId);
                 && i >= 0 && wf.steps[i].call.Some? && wf.steps[i].call.value in cfg.workflows
                 && var target := wf.steps[i].call.value;
                    && Called(cfg, env, db, b, p, stepId, target, victims, now)
                    && reply == if p in victims then Error(SessionNotFound)
                                else if cfg.workflows[target].steps[0].action.McpToolCall? then Crash
                                else Entered(db.nextSid, target, cfg.workflows[target].steps[0].id)
            else Refuses(guards, reply) && Untouched(cfg, db, b, p, now)
  {
    hide Refuses, EnterGuards, GuardsOf, AllPass, Untouched, TopFrame, CallChild, Called, Sound, ResolveRef;
    hide UniqueIds, BackwardRefs, TargetsExist, FieldRules, ForwardMcp;
    var (b, reply) := EnterSubWorkflow(cfg, env, db, p, stepId, victims, now);
    SessionGuardsMean(cfg, db, p, now);
    ResolveWrites(cfg, db, p, now);
    NothingTouched(cfg, db, p, now);
    var own := if Known(cfg, db, p) then EnterGuards(cfg, env, db, p, db.sessions[p], cfg.workflows[db.sessions[p].workflowType], stepId) else [];
    if Known(cfg, db, p) {
      EnterGuardsMean(cfg, env, db, p, db.sessions[p], cfg.workflows[db.sessions[p].workflowType], stepId);
    }
    GuardsPass(stepId == "", cfg, db, p, own, now);
    if !AllPass(GuardsOf(stepId == "", cfg, db, p, own)) {
      GuardsRefuse(stepId == "", cfg, db, p, own, now, reply);
    } else {
      var wf := cfg.workflows[db.sessions[p].workflowType];
      CallMeans(cfg, env, db, victims, wf.steps[FindStep(wf, stepId)].call.value, p, stepId, now);
    }
  }

  // --- push_flow -----------------------------------------------------------------------------------------

  ghost function PushGuards(cfg: Config, db: Db, s: Sid, row: Session, name: Name, pausedAt: StepId): seq<Guard> {
    [Guard(row.currentStep == "__complete__", WorkflowComplete),
     Guard(row.escalation.Some?, SessionEscalated),
     Guard(row.currentStep != pausedAt, OutOfOrder),
     Guard(FrameAbove(db, s), SubWorkflowPending),
     Guard(name !in cfg.workflows, WorkflowNotLoaded),
     Guard(|set f | f in db.frames && db.frames[f].root == RootOf(db, s)| >= 3, StackFull),
     Guard(|OpenSessions(db)| >= 5, SessionCapExceeded)]
  }

  ghost function AllPushGuards(cfg: Config, db: Db, s: Sid, name: Name, pausedAt: StepId): seq<Guard> {
    GuardsOf(name == "" || pausedAt == "", cfg, db, s, if Known(cfg, db, s) then PushGuards(cfg, db, s, db.sessions[s], name, pausedAt) else [])
  }

  lemma PushGuardsMean(cfg: Config, db: Db, s: Sid, row: Session, name: Name, pausedAt: StepId)
    ensures var g := PushGuards(cfg, db, s, row, name, pausedAt);
            match PushRefusal(cfg, db, s, row, name, pausedAt)
            case Some(code) => Refuses(g, Error(code)) && !AllPass(g)
            case None => AllPass(g)
  {
    hide TopFrame, FrameAbove, RootIn;
    var g := PushGuards(cfg, db, s, row, name, pausedAt);
    FrameAboveIsTop(db, s);
    assert FramesOf(db, RootOf(db, s)) == set f | f in db.frames && db.frames[f].root == RootOf(db, s);
    assert ActiveIn(db.sessions) == OpenSessions(db);
    var k := SomeFailsFirst(g);
    if FailsFirst(g, k) {
      assert k == 0 || k == 1 || k == 2 || k == 3 || k == 4 || k == 5 || k == 6;
      assert (k > 0 ==> !g[0].fails) && (k > 1 ==> !g[1].fails) && (k > 2 ==> !g[2].fails) && (k > 3 ==> !g[3].fails)
             && (k > 4 ==> !g[4].fails) && (k > 5 ==> !g[5].fails);
    } else {
      assert !g[0].fails && !g[1].fails && !g[2].fails && !g[3].fails && !g[4].fails && !g[5].fails && !g[6].fails;
    }
  }

  /** The depth read ahead is not exceeded inside the transaction: eviction only removes frames. */
  lemma StillRoom(db: Db, victims: set<Sid>, s: Sid)
    requires Sound(db) && StackDepth(db, RootOf(db, s)) < MAX_STACK_DEPTH
    ensures !PushFull(db, victims, s, Some(MAX_STACK_DEPTH))
  {
    var db1 := Remove(db, victims);
    SubsetSize(FramesOf(db1, RootOf(db1, s)), FramesOf(db, RootOf(db, s)));
  }

  /** Pushing is refused by the first guard that fails; otherwise a fresh session is framed above as
      a digression that remembers where its outer one paused, and no other row is written. */
  lemma PushMeans(cfg: Config, env: Env, db: Db, s: Sid, name: Name, pausedAt: StepId, victims: set<Sid>, now: int)
    requires WellFormedConfig(cfg) && Sound(db)
    ensures var (b, reply) := PushFlow(cfg, env, db, s, name, pausedAt, victims, now);
            var guards, c := AllPushGuards(cfg, db, s, name, pausedAt), db.nextSid;
            if AllPass(guards) then
              && Known(cfg, db, s) && name in cfg.workflows
              && Fresh(cfg, env, b, c, name, Some(s), now) && RestKept(db, b, c, victims, None)
              && FramedAbove(db, b, c, s, victims, DigressionFrame, Some(pausedAt))
              && var first := cfg.workflows[name].steps[0]; reply == if first.action.McpToolCall? then Crash else Pushed(c, name, first.id)
            else Refuses(guards, reply) && Untouched(cfg, db, b, s, now)
  {
    hide Refuses, PushGuards, GuardsOf, AllPass, Untouched, TopFrame, SpawnChild, Fresh, RestKept, FramedAbove, Sound, StackDepth, CountActive, PushFull;
    hide UniqueIds, BackwardRefs, TargetsExist, FieldRules, ForwardMcp;
    var (b, reply) := PushFlow(cfg, env, db, s, name, pausedAt, victims, now);
    SessionGuardsMean(cfg, db, s, now);
    ResolveWrites(cfg, db, s, now);
    NothingTouched(cfg, db, s, now);
    var own := if Known(cfg, db, s) then PushGuards(cfg, db, s, db.sessions[s], name, pausedAt) else [];
    if Known(cfg, db, s) {
      PushGuardsMean(cfg, db, s, db.sessions[s], name, pausedAt);
    }
    GuardsPass(name == "" || pausedAt == "", cfg, db, s, own, now);
    if !AllPass(GuardsOf(name == "" || pausedAt == "", cfg, db, s, own)) {
      GuardsRefuse(name == "" || pausedAt == "", cfg, db, s, own, now, reply);
    } else {
      StillRoom(db, victims, s);
      SpawnMeans(cfg, env, db, victims, name, s, DigressionFrame, Some(pausedAt), Some(MAX_STACK_DEPTH), now);
    }
  }

  // --- start_workflow ------------------------------------------------------------------------------------

  ghost function StartGuards(cfg: Config, db: Db, name: Name): seq<Guard> {
    [Guard(name == "", InvalidArgument),
     Guard(name !in cfg.workflows, WorkflowNotLoaded),
     Guard(|OpenSessions(db)| >= 5, SessionCapExceeded)]
  }

  lemma StartGuardsMean(cfg: Config, db: Db, name: Name)
    ensures var g := StartGuards(cfg, db, name);
            if name == "" then Refuses(g, Error(InvalidArgument)) && !AllPass(g)
            else if name !in cfg.workflows then Refuses(g, Error(WorkflowNotLoaded)) && !AllPass(g)
            else if CountActive(db) >= MAX_ACTIVE then Refuses(g, Error(SessionCapExceeded)) && !AllPass(g)
            else AllPass(g)
  {
    var g := StartGuards(cfg, db, name);
    assert ActiveIn(db.sessions) == OpenSessions(db);
    var k := SomeFailsFirst(g);
    if FailsFirst(g, k) {
      assert k == 0 || k == 1 || k == 2;
      assert (k > 0 ==> !g[0].fails) && (k > 1 ==> !g[1].fails);
    } else {
      assert !g[0].fails && !g[1].fails && !g[2].fails;
    }
  }

  /** What an accepted start writes: a root where the in-line run at the front of its workflow left
      off, with what that run stored. */
  ghost predicate Begun(cfg: Config, env: Env, a: Db, b: Db, name: Name, victims: set<Sid>, now: int)
    requires WellFormedConfig(cfg) && name in cfg.workflows
  {
    var c, wf := a.nextSid, cfg.workflows[name];
    var r := AutoRun(env, wf, wf.steps[0].id, map[], []);
    && b.nextSid == c + 1 && c in b.sessions && (c in a.frames <==> c in b.frames) && RestKept(a, b, c, victims, None)
    && b.sessions[c] == Session(name, r.at, r.data, map[], b.sessions[c].visits, None, map[], now,
                                if r.at == "__complete__" then Some(now) else None, None, None, Stamp(cfg, env, name))
    && forall step :: Submissions.Visited(b.sessions[c], step) == FrontVisits(wf, r, step)
  }

  /** The creation counts as a visit of the first step, then every executed step and the one reached. */
  function FrontVisits(wf: Workflow, r: AutoResult, step: StepId): nat
    requires |wf.steps| > 0
  {
    var first := wf.steps[0].id;
    (if step == first then 1 else 0) + multiset(r.executed)[step]
    + (if !r.cascaded && r.at == step && r.at != first && r.at != "__complete__" then 1 else 0)
  }

  lemma RootMeans(cfg: Config, env: Env, db: Db, name: Name, victims: set<Sid>, now: int)
    requires WellFormedConfig(cfg) && name in cfg.workflows && Sound(db)
    ensures var b := NewRoot(cfg, env, db, name, victims, now);
            Fresh(cfg, env, b, db.nextSid, name, None, now) && RestKept(db, b, db.nextSid, victims, None)
            && db.nextSid !in db.frames && db.nextSid !in b.frames
  {
    hide UniqueIds, BackwardRefs, TargetsExist, FieldRules, ForwardMcp;
    assert map[][cfg.workflows[name].steps[0].id := 1] == map[cfg.workflows[name].steps[0].id := 1];
  }

  lemma FrontMeans(db: Db, s: Sid, wf: Workflow, first: StepId, r: AutoResult, now: int)
    requires s in db.sessions && db.sessions[s].currentStep == first != COMPLETE && db.sessions[s].stepData == map[] && db.sessions[s].updatedAt == now
    requires r.at == first && !r.cascaded ==> r.data == map[] && r.executed == []
    requires |wf.steps| > 0 && first == wf.steps[0].id && db.sessions[s].visits == map[first := 1]
    ensures var b := RunFront(db, s, wf, first, r, now).0;
            && OnlyRow(db, b, s) && s in b.sessions
            && b.sessions[s] == db.sessions[s].(currentStep := r.at, stepData := r.data, visits := b.sessions[s].visits,
                                                completedAt := if r.at == COMPLETE then Some(now) else db.sessions[s].completedAt)
            && forall step :: Submissions.Visited(b.sessions[s], step) == FrontVisits(wf, r, step)
  {
    hide IncVisits, OnlyRow;
    var b := RunFront(db, s, wf, first, r, now).0;
    Submissions.IncVisitsRow(db, s, r.executed, now);
    FrontOnlyRow(db, s, wf, first, r, now);
    forall step ensures Submissions.Visited(b.sessions[s], step) == FrontVisits(wf, r, step) {
      Visits.RunFrontCounts(db, s, wf, first, r, step, now);
    }
  }

  lemma FrontOnlyRow(db: Db, s: Sid, wf: Workflow, first: StepId, r: AutoResult, now: int)
    ensures OnlyRow(db, RunFront(db, s, wf, first, r, now).0, s)
  {
    hide IncVisits, IncVisit, SetStepAndData, OnlyRow;
    var db1 := IncVisits(db, s, r.executed, now);
    IncVisitsOnlyRow(db, s, r.executed, now);
    SetBothOnlyRow(db1, s, r.at, r.data, now);
    OnlyRowThen(db, db1, SetStepAndData(db1, s, r.at, r.data, now), s);
    var db2 := if r.at != first then SetStepAndData(db1, s, r.at, r.data, now) else db1;
    IncVisitOnlyRow(db2, s, r.at, now);
    OnlyRowThen(db, db2, IncVisit(db2, s, r.at, now), s);
  }

  /** A run that ends at the first step without a cascade did nothing. */
  lemma StoodStill(env: Env, wf: Workflow)
    requires WellFormedWorkflow(wf)
    ensures var r := AutoRun(env, wf, wf.steps[0].id, map[], []);
            r.at == wf.steps[0].id && !r.cascaded ==> r.data == map[] && r.executed == []
  {
    hide AutoRun, ExecutedBetween, BackwardRefs, TargetsExist, FieldRules, ForwardMcp;
    var first := wf.steps[0].id;
    PositionOfIdAt(wf, 0);
    if wf.steps[0].action.Llm? {
      StopsAtClientStep(env, wf);
    } else {
      AutoRunFrom(env, wf, first, map[]);
    }
  }

  lemma StopsAtClientStep(env: Env, wf: Workflow)
    requires UniqueIds(wf) && ForwardMcp(wf) && |wf.steps| > 0 && wf.steps[0].action.Llm?
    ensures AutoRun(env, wf, wf.steps[0].id, map[], []) == AutoResult(wf.steps[0].id, map[], [], false)
  {
    PositionOfIdAt(wf, 0);
  }

  /** Starting is refused by the first guard that fails; otherwise a root begins, no session but the
      evicted ones is touched, and the reply names the root and where it stands. */
  lemma StartMeans(cfg: Config, env: Env, db: Db, name: Name, victims: set<Sid>, now: int)
    requires WellFormedConfig(cfg) && Sound(db)
    ensures var (b, reply) := StartWorkflow(cfg, env, db, name, victims, now);
            var guards, c := StartGuards(cfg, db, name), db.nextSid;
            if AllPass(guards) then
              && name in cfg.workflows && Begun(cfg, env, db, b, name, victims, now)
              && var wf := cfg.workflows[name];
                 var r := AutoRun(env, wf, wf.steps[0].id, map[], []);
                 reply == if r.cascaded then Error(SkippedPredecessor)
                          else if r.at == "__complete__" then Finished(c, false)
                          else if FindStep(wf, r.at) < 0 then Crash
                          else Started(c, r.at)
            else Refuses(guards, reply) && b == db
  {
    hide AutoRun, Refuses, StartGuards, AllPass, NewRoot, CountActive, BackwardRefs, TargetsExist, FieldRules, ForwardMcp, OnlyRow;
    StartGuardsMean(cfg, db, name);
    if AllPass(StartGuards(cfg, db, name)) {
      var wf := cfg.workflows[name];
      var first := wf.steps[0].id;
      var r := AutoRun(env, wf, first, map[], []);
      StepsAreNotComplete(wf, first);
      PositionOfIdAt(wf, 0);
      StoodStill(env, wf);
      RootMeans(cfg, env, db, name, victims, now);
      var root := NewRoot(cfg, env, db, name, victims, now);
      FrontMeans(root, db.nextSid, wf, first, r, now);
      OneRowLater(db, root, RunFront(root, db.nextSid, wf, first, r, now).0, db.nextSid, victims);
    }
  }

  lemma OneRowLater(a: Db, b: Db, d: Db, c: Sid, victims: set<Sid>)
    requires RestKept(a, b, c, victims, None) && OnlyRow(b, d, c) && c in b.sessions
    ensures RestKept(a, d, c, victims, None) && d.frames == b.frames && d.nextSid == b.nextSid
  {
  }

  // --- pop_flow, delete_session ----------------------------------------------------------------------------

  ghost function PopGuards(db: Db, s: Sid, row: Session): seq<Guard> {
    [Guard(row.escalation.Some?, SessionEscalated),
     Guard(s !in db.frames, NoFrameToPop),
     Guard(s in db.frames && db.frames[s].kind == CallFrame, FrameNotPoppable)]
  }

  ghost function AllPopGuards(cfg: Config, db: Db, s: Sid): seq<Guard> {
    GuardsOf(false, cfg, db, s, if Known(cfg, db, s) then PopGuards(db, s, db.sessions[s]) else [])
  }

  lemma PopGuardsMean(db: Db, s: Sid, row: Session)
    ensures var g := PopGuards(db, s, row);
            if row.escalation.Some? then Refuses(g, Error(SessionEscalated)) && !AllPass(g)
            else if s !in db.frames then Refuses(g, Error(NoFrameToPop)) && !AllPass(g)
            else if db.frames[s].kind == CallFrame then Refuses(g, Error(FrameNotPoppable)) && !AllPass(g)
            else AllPass(g)
  {
    var g := PopGuards(db, s, row);
    var k := SomeFailsFirst(g);
    if FailsFirst(g, k) {
      assert k == 0 || k == 1 || k == 2;
      assert (k > 0 ==> !g[0].fails) && (k > 1 ==> !g[1].fails);
    } else {
      assert !g[0].fails && !g[1].fails && !g[2].fails;
    }
  }

  /** The digression is gone, rows and frame, and nothing else changed. */
  ghost predicate Gone(a: Db, b: Db, s: Sid) {
    b == a.(sessions := a.sessions - {s}, frames := a.frames - {s})
  }

  /** What the client is told of the outer session: where it stands and what it is to call there. */
  function ResumedReply(row: Session, wf: Workflow, outer: Sid, s: Sid): Reply {
    var i := FindStep(wf, row.currentStep);
    if row.currentStep == "__complete__" || i < 0 then ResumedComplete(outer, s)
    else if wf.steps[i].action.McpToolCall? then Crash
    else Resumed(outer, s, row.currentStep, wf.steps[i].call)
  }

  /** Popping is refused by the first guard that fails, then by the guards of the outer session;
      otherwise exactly the digression goes, and the reply names the outer session and its step. */
  lemma PopMeans(cfg: Config, db: Db, s: Sid, now: int)
    ensures var (b, reply) := PopFlow(cfg, db, s, now);
            var guards := AllPopGuards(cfg, db, s);
            if !AllPass(guards) then Refuses(guards, reply) && Untouched(cfg, db, b, s, now)
            else
              match ParentOf(db, s)
              case None => reply == Crash && b == db
              case Some(outer) =>
                if AllPass(SessionGuards(cfg, db, outer)) then
                  Known(cfg, db, outer) && Gone(db, b, s)
                  && reply == ResumedReply(db.sessions[outer], cfg.workflows[db.sessions[outer].workflowType], outer, s)
                else Refuses(SessionGuards(cfg, db, outer), reply) && Untouched(cfg, db, b, outer, now)
  {
    hide Refuses, PopGuards, GuardsOf, SessionGuards, AllPass, Untouched, ParentOf;
    var (b, reply) := PopFlow(cfg, db, s, now);
    SessionGuardsMean(cfg, db, s, now);
    ResolveWrites(cfg, db, s, now);
    NothingTouched(cfg, db, s, now);
    var own := if Known(cfg, db, s) then PopGuards(db, s, db.sessions[s]) else [];
    if Known(cfg, db, s) {
      PopGuardsMean(db, s, db.sessions[s]);
    }
    GuardsPass(false, cfg, db, s, own, now);
    if !AllPass(GuardsOf(false, cfg, db, s, own)) {
      GuardsRefuse(false, cfg, db, s, own, now, reply);
    } else if ParentOf(db, s).Some? {
      var outer := ParentOf(db, s).value;
      SessionGuardsMean(cfg, db, outer, now);
      ResolveWrites(cfg, db, outer, now);
      RefusedGuards(cfg, db, outer, now);
    }
  }

  /** Deletion asks only that the session is there and not framed, and takes exactly it. */
  lemma DeleteMeans(db: Db, s: Sid)
    ensures var (b, reply) := DeleteTool(db, s);
            && (s in db.frames ==> reply == Error(ParentOwned) && b == db)
            && (s !in db.frames && s !in db.sessions ==> reply == Error(SessionNotFound) && b == db)
            && (s !in db.frames && s in db.sessions ==> reply == Deleted(s) && b == db.(sessions := db.sessions - {s}))
  {
    assert s !in db.frames ==> db.frames - {s} == db.frames;
  }
}
