/** Call-graph validation bounds run-time nesting: runs of consecutive call frames follow paths
    of the call graph. */
module Nesting {
  import opened Options
  import opened Workflows
  import opened References
  import opened InlineExecution
  import opened Tables
  import opened Sequences
  import opened StackView
  import opened StackWrites
  import opened ToolSpecs
  import opened StackSafety
  import opened Soundness
  import opened ToolMoves
  import opened CallGraph

  // --- What a call does to the frames ---------------------------------------------------------

  /** Frames only disappear. */
  ghost predicate SubFrames(a: Db, b: Db) {
    forall f :: f in b.frames ==> f in a.frames && b.frames[f] == a.frames[f]
  }

  lemma ShapeThenSub(a: Db, b: Db, c: Db)
    requires SameShape(a, b) && (c == b || SubFrames(b, c) || SameShape(b, c))
    ensures SubFrames(a, c)
  {
  }

  lemma SubThenShape(a: Db, b: Db, c: Db)
    requires SubFrames(a, b) && SameShape(b, c)
    ensures SubFrames(a, c)
  {
  }

  lemma UnlinkFrames(db: Db, child: Sid, p: Sid, now: int)
    ensures SubFrames(db, Unlink(db, child, p, now)) && SubFrames(db, DeleteSession(db, child))
  {
  }

  lemma ResumeOuterFrames(cfg: Config, db: Db, child: Sid, outer: Sid, now: int)
    ensures SubFrames(db, ResumeOuter(cfg, db, child, outer, now).0)
  {
    hide SubFrames, SameShape, DeleteSession;
    ResolveSameShape(cfg, db, outer, now);
    var b := ResumeOuter(cfg, db, child, outer, now).0;
    UnlinkFrames(db, child, outer, now);
    if SameShape(db, b) {
      ShapeThenSub(db, b, b);
    }
  }

  lemma PropagateFrames(cfg: Config, env: Env, db: Db, child: Sid, p: Sid, childWf: Workflow, data: StepData, now: int)
    requires WellFormedConfig(cfg) && |childWf.steps| > 0
    ensures SubFrames(db, Propagate(cfg, env, db, child, p, childWf, data, now).0)
  {
    hide SubFrames, SameShape, Unlink, AdvanceParent, UniqueIds, BackwardRefs, TargetsExist, FieldRules, ForwardMcp;
    var artifact := FinalArtifact(childWf, data);
    match HandoverOf(cfg, env, db, child, p, artifact, now)
    case Withheld(b, _) =>
      WithheldSameShape(cfg, env, db, child, p, artifact, now);
      ShapeThenSub(db, b, b);
    case Delivered(row, wf, i) =>
      var unlinked, data' := Unlink(db, child, p, now), row.stepData[row.currentStep := artifact];
      UnlinkFrames(db, child, p, now);
      AdvanceParentSameShape(env, unlinked, p, wf, i, data', now);
      SubThenShape(db, unlinked, AdvanceParent(env, unlinked, p, wf, i, data', now).0);
  }

  lemma CommitFrames(cfg: Config, env: Env, db: Db, s: Sid, row: Session, wf: Workflow, i: nat, content: string, branch: string, now: int)
    requires WellFormedConfig(cfg) && WellFormedWorkflow(wf) && i < |wf.steps|
    ensures SubFrames(db, Commit(cfg, env, db, s, row, wf, i, content, branch, now).0)
  {
    hide Move, ResumeOuter, Propagate, UniqueIds, BackwardRefs, TargetsExist, FieldRules, ForwardMcp;
    var data := row.stepData[wf.steps[i].id := content];
    var fired := FirstGuardrail(env, wf.guardrails, content, data, row, wf.steps[i].id);
    if fired.Some? && fired.value.action.Escalate? {
      FailUpwardsSameShape(SetData(SetEscalation(db, s, fired.value.id, now), s, data, now), s, Error(SessionEscalated), now);
    } else {
      var requested := Requested(wf, i, fired, branch);
      if requested.Some? {
        var m := Move(env, wf, requested.value.0, data, requested.value.1);
        var db1 := WriteMovement(db, s, m, now);
        MovementSameShape(db, s, m, now);
        FailUpwardsSameShape(db1, s, Error(SkippedPredecessor), now);
        if m.Moved? && ParentOf(db1, s).Some? {
          ResumeOuterFrames(cfg, db1, s, ParentOf(db1, s).value, now);
          PropagateFrames(cfg, env, db1, s, ParentOf(db1, s).value, wf, m.data, now);
        }
      }
    }
  }

  lemma SubmitArtifactFrames(cfg: Config, env: Env, db: Db, s: Sid, row: Session, wf: Workflow, i: nat,
                             content: string, branch: string, artifact: string, now: int)
    requires WellFormedConfig(cfg) && WellFormedWorkflow(wf) && i < |wf.steps|
    ensures SubFrames(db, SubmitArtifact(cfg, env, db, s, row, wf, i, content, branch, artifact, now).0)
  {
    hide SubFrames, Commit, SameShape, StoreArtifact, UniqueIds, BackwardRefs, TargetsExist, FieldRules, ForwardMcp;
    var stored := StoreArtifact(db, s, wf.steps[i].id, artifact, content, now);
    StoreArtifactSameShape(db, s, wf.steps[i].id, artifact, content, now);
    Unframed(db);
    ShapeThenSub(db, stored, stored);
    CommitFrames(cfg, env, stored, s, row, wf, i, content, branch, now);
    ShapeThenSub(db, stored, Commit(cfg, env, stored, s, row, wf, i, content, branch, now).0);
    CommitFrames(cfg, env, db, s, row, wf, i, content, branch, now);
  }

  lemma Unframed(db: Db)
    ensures SubFrames(db, db)
  {
  }

  lemma SubmitContentFrames(cfg: Config, env: Env, db: Db, s: Sid, row: Session, wf: Workflow, i: nat,
                            content: string, branch: string, now: int)
    requires WellFormedConfig(cfg) && WellFormedWorkflow(wf) && i < |wf.steps|
    ensures SubFrames(db, SubmitContent(cfg, env, db, s, row, wf, i, content, branch, now).0)
  {
    hide SubFrames, Commit, SameShape, IncRetry, FailUpwards, UniqueIds, BackwardRefs, TargetsExist, FieldRules,
         ForwardMcp;
    var retried := IncRetry(db, s, wf.steps[i].id, now);
    IncRetrySameShape(db, s, wf.steps[i].id, now);
    FailUpwardsSameShape(retried, s, ValidationError(true), now);
    ShapeThenSub(db, retried, retried);
    ShapeThenSub(db, retried, FailUpwards(retried, s, ValidationError(true), now).0);
    CommitFrames(cfg, env, db, s, row, wf, i, content, branch, now);
  }

  lemma SubmitFrames(cfg: Config, env: Env, db: Db, s: Sid, stepId: StepId, content: string, branch: string, artifact: string, now: int)
    requires WellFormedConfig(cfg)
    ensures SubFrames(db, SubmitStep(cfg, env, db, s, stepId, content, branch, artifact, now).0)
  {
    hide SubFrames, SameShape, SubmitArtifact, SubmitContent, UniqueIds, BackwardRefs, TargetsExist, FieldRules,
         ForwardMcp, TopFrame, Stale;
    Unframed(db);
    match Resolve(cfg, db, s, now)
    case Refused(b, _) =>
      ResolveSameShape(cfg, db, s, now);
      ShapeThenSub(db, b, b);
    case Ready(row, wf) =>
      if SubmitRefusal(env, db, s, row, wf, stepId, content).None? {
        SubmitArtifactFrames(cfg, env, db, s, row, wf, FindStep(wf, stepId), content, branch, artifact, now);
        SubmitContentFrames(cfg, env, db, s, row, wf, FindStep(wf, stepId), content, branch, now);
      }
  }

  lemma ReviseFrames(cfg: Config, db: Db, s: Sid, stepId: StepId, now: int)
    ensures SubFrames(db, ReviseStep(cfg, db, s, stepId, now).0)
  {
    hide ReviseTo;
    ResolveSameShape(cfg, db, s, now);
    var access := Resolve(cfg, db, s, now);
    if access.Ready? && ReviseRefusal(db, s, access.session, access.wf, stepId).None? {
      ReviseShape(db, s, access.wf, FindStep(access.wf, stepId), now);
    }
  }

  lemma PopFrames(cfg: Config, db: Db, s: Sid, now: int)
    ensures SubFrames(db, PopFlow(cfg, db, s, now).0)
  {
    ResolveSameShape(cfg, db, s, now);
    if ParentOf(db, s).Some? {
      ResolveSameShape(cfg, db, ParentOf(db, s).value, now);
    }
  }

  lemma StartFrames(cfg: Config, env: Env, db: Db, name: Name, now: int)
    requires WellFormedConfig(cfg)
    ensures SubFrames(db, StartWorkflow(cfg, env, db, name, {}, now).0)
  {
    hide AutoRun;
    if name in cfg.workflows && CountActive(db) < MAX_ACTIVE {
      var wf := cfg.workflows[name];
      var first := wf.steps[0].id;
      var created := CreateRoot(db, {}, name, first, FingerprintFor(cfg, env, name), now);
      IncVisitSameShape(created, db.nextSid, first, now);
      RunFrontSameShape(NewRoot(cfg, env, db, name, {}, now), db.nextSid, wf, first, AutoRun(env, wf, first, map[], []), now);
    }
  }

  /** The frame put above p, when there is one, and the type of its session. */
  ghost predicate Spawned(a: Db, b: Db, p: Sid, kind: FrameKind, target: Name) {
    && (forall f :: f in b.frames && f != a.nextSid ==> f in a.frames && b.frames[f] == a.frames[f])
    && p in a.sessions && a.nextSid in b.sessions && a.nextSid in b.frames
    && b.frames[a.nextSid].kind == kind && b.sessions[a.nextSid].workflowType == target
    && b.frames[a.nextSid].root == RootOf(a, p) && b.frames[a.nextSid].depth == DepthOf(a, p) + 1
  }

  lemma SpawnFrames(cfg: Config, env: Env, db: Db, target: Name, p: Sid, kind: FrameKind, callStep: Option<StepId>,
                    maxDepth: Option<nat>, now: int)
    requires WellFormedConfig(cfg) && target in cfg.workflows && p in db.sessions && !PushFull(db, {}, p, maxDepth)
    ensures Spawned(db, SpawnChild(cfg, env, db, {}, target, p, kind, callStep, maxDepth, now), p, kind, target)
  {
    hide SpawnChild, PushFull;
    var row := SpawnIsPush(cfg, env, db, target, p, kind, callStep, maxDepth, now);
  }

  lemma LinkFrames(a: Db, b: Db, p: Sid, target: Name, stepId: StepId, now: int)
    requires Spawned(a, b, p, CallFrame, target)
    ensures Spawned(a, LinkCalled(b, p, a.nextSid, stepId, now), p, CallFrame, target)
  {
  }

  /** An accepted call frames the target of a call-step of the caller's workflow. */
  lemma EnterFrames(cfg: Config, env: Env, db: Db, p: Sid, stepId: StepId, now: int)
    requires WellFormedConfig(cfg)
    ensures var b := EnterSubWorkflow(cfg, env, db, p, stepId, {}, now).0;
            SubFrames(db, b)
            || (exists target :: Spawned(db, b, p, CallFrame, target)
                                 && Edge(CallGraphOf(cfg.workflows), db.sessions[p].workflowType, target))
  {
    hide CallGraphOf, UniqueIds, BackwardRefs, TargetsExist, FieldRules, ForwardMcp, TopFrame, ResolveRef, Spawned,
         SpawnChild;
    ResolveSameShape(cfg, db, p, now);
    var access := Resolve(cfg, db, p, now);
    if access.Ready? && EnterRefusal(cfg, env, db, p, access.session, access.wf, stepId).None? {
      var step := access.wf.steps[FindStep(access.wf, stepId)];
      var target := step.call.value;
      SpawnFrames(cfg, env, db, target, p, CallFrame, None, None, now);
      LinkFrames(db, SpawnChild(cfg, env, db, {}, target, p, CallFrame, None, None, now), p, target, stepId, now);
      assert step in access.wf.steps && step.call == Some(target);
    }
  }

  lemma PushFrames(cfg: Config, env: Env, db: Db, s: Sid, name: Name, pausedAt: StepId, now: int)
    requires WellFormedConfig(cfg)
    ensures var b := PushFlow(cfg, env, db, s, name, pausedAt, {}, now).0;
            SubFrames(db, b) || Spawned(db, b, s, DigressionFrame, name)
  {
    hide UniqueIds, BackwardRefs, TargetsExist, FieldRules, ForwardMcp, TopFrame, Spawned, SpawnChild, CountActive,
         StackDepth;
    ResolveSameShape(cfg, db, s, now);
    var access := Resolve(cfg, db, s, now);
    if access.Ready? && PushRefusal(cfg, db, s, access.session, name, pausedAt).None? && !PushFull(db, {}, s, Some(MAX_STACK_DEPTH)) {
      SpawnFrames(cfg, env, db, name, s, DigressionFrame, Some(pausedAt), Some(MAX_STACK_DEPTH), now);
    }
  }

  /** One call below the cap: frames disappear, or one appears, and a call frame along an edge
      of the call graph. */
  ghost predicate FramesMove(wfs: Catalogue, a: Db, b: Db) {
    || SubFrames(a, b)
    || (exists p, kind, target :: Spawned(a, b, p, kind, target)
          && (kind == CallFrame ==> Edge(CallGraphOf(wfs), a.sessions[p].workflowType, target)))
  }

  lemma ApplyFrames(db: Db, e: Event)
    requires WellFormedConfig(e.cfg)
    ensures FramesMove(e.cfg.workflows, db, Apply(db, e).0)
  {
    hide SubFrames, Spawned, CallGraphOf, StartWorkflow, SubmitStep, ReviseStep, EnterSubWorkflow, PushFlow, PopFlow;
    var b := Apply(db, e).0;
    match e.call
    case Start(name) => StartFrames(e.cfg, e.env, db, name, e.now);
    case Submit(s, stepId, content, branch, artifact) => SubmitFrames(e.cfg, e.env, db, s, stepId, content, branch, artifact, e.now);
    case Revise(s, stepId) => ReviseFrames(e.cfg, db, s, stepId, e.now);
    case Enter(s, stepId) => EnterFrames(e.cfg, e.env, db, s, stepId, e.now);
    case Push(s, name, stepId) =>
      PushFrames(e.cfg, e.env, db, s, name, stepId, e.now);
      assert Spawned(db, b, s, DigressionFrame, name) ==> FramesMove(e.cfg.workflows, db, b);
    case Pop(s) => PopFrames(e.cfg, db, s, e.now);
    case Delete(s) => DeleteFrames(db, s);
  }

  lemma DeleteFrames(db: Db, s: Sid)
    ensures SubFrames(db, DeleteTool(db, s).0)
  {
  }

  // --- Call frames follow the call graph -------------------------------------------------------

  /** The frame at position d above the root, when it is a call frame, lies along an edge of the
      call graph from the session below it. */
  ghost predicate AlongEdge(wfs: Catalogue, db: Db, v: View, r: Sid, d: nat)
    requires r in v && d < |v[r]|
  {
    && At(v, r, d) in db.sessions && v[r][d] in db.sessions && v[r][d] in db.frames
    && (db.frames[v[r][d]].kind == CallFrame ==>
          Edge(CallGraphOf(wfs), db.sessions[At(v, r, d)].workflowType, db.sessions[v[r][d]].workflowType))
  }

  ghost predicate CallsFollowGraph(wfs: Catalogue, db: Db, v: View) {
    forall r, d :: r in v && 0 <= d < |v[r]| ==> AlongEdge(wfs, db, v, r, d)
  }

  lemma ViewStepPrefix(v: View, w: View, n: Sid, r: Sid, d: nat)
    requires ViewStep(v, w, n) && r in w && d < |w[r]|
    ensures r in v && d <= |v[r]| && At(w, r, d) == At(v, r, d)
    ensures w[r][d] == (if d < |v[r]| then v[r][d] else n)
  {
  }

  ghost predicate SameTypes(a: Db, b: Db) {
    forall s :: s in a.sessions && s in b.sessions ==> b.sessions[s].workflowType == a.sessions[s].workflowType
  }

  lemma SpawnedIsAbove(a: Db, v: View, b: Db, w: View, r: Sid, d: nat, p: Sid, kind: FrameKind, target: Name)
    requires Represents(a, v) && Represents(b, w) && Spawned(a, b, p, kind, target)
    requires r in v && r in w && d < |w[r]| && d <= |v[r]| && w[r][d] == a.nextSid
    ensures At(v, r, d) == p
  {
    assert FrameAt(b, w[r][d], r, d + 1);
    Located(a, v, p);
  }

  lemma NewFrameAlongEdge(wfs: Catalogue, a: Db, v: View, b: Db, w: View, r: Sid, d: nat)
    requires Represents(a, v) && Issued(a) && Represents(b, w) && FramesMove(wfs, a, b) && SameTypes(a, b)
    requires r in v && r in w && d < |w[r]| && d <= |v[r]| && At(w, r, d) == At(v, r, d) && w[r][d] == a.nextSid
    ensures AlongEdge(wfs, b, w, r, d)
  {
    LocatedAt(b, w, r, d);
    LocatedAt(b, w, r, d + 1);
    NewFrameIs(wfs, a, v, b, w, r, d);
  }

  lemma NewFrameIs(wfs: Catalogue, a: Db, v: View, b: Db, w: View, r: Sid, d: nat)
    requires Represents(a, v) && Issued(a) && Represents(b, w) && FramesMove(wfs, a, b)
    requires r in v && r in w && d < |w[r]| && d <= |v[r]| && w[r][d] == a.nextSid
    ensures a.nextSid in b.frames && a.nextSid in b.sessions && At(v, r, d) in a.sessions
    ensures b.frames[a.nextSid].kind == CallFrame ==>
              Edge(CallGraphOf(wfs), a.sessions[At(v, r, d)].workflowType, b.sessions[a.nextSid].workflowType)
  {
    hide CallGraphOf;
    assert FrameAt(b, w[r][d], r, d + 1);
    var p, kind, target :| Spawned(a, b, p, kind, target)
                           && (kind == CallFrame ==> Edge(CallGraphOf(wfs), a.sessions[p].workflowType, target));
    SpawnedIsAbove(a, v, b, w, r, d, p, kind, target);
  }

  lemma OldFrameAlongEdge(wfs: Catalogue, a: Db, v: View, b: Db, w: View, r: Sid, d: nat)
    requires Good(a, v) && Represents(b, w) && FramesMove(wfs, a, b) && SameTypes(a, b)
    requires r in v && r in w && d < |w[r]| && d < |v[r]| && At(w, r, d) == At(v, r, d) && w[r][d] == v[r][d]
    requires AlongEdge(wfs, a, v, r, d)
    ensures AlongEdge(wfs, b, w, r, d)
  {
    hide CallGraphOf;
    LocatedAt(b, w, r, d);
    LocatedAt(b, w, r, d + 1);
    assert FrameAt(b, w[r][d], r, d + 1);
  }

  lemma CallFollowsGraph(wfs: Catalogue, a: Db, v: View, b: Db, w: View)
    requires Good(a, v) && Good(b, w) && ViewStep(v, w, a.nextSid) && FramesMove(wfs, a, b) && SameTypes(a, b)
    requires CallsFollowGraph(wfs, a, v)
    ensures CallsFollowGraph(wfs, b, w)
  {
    hide FramesMove, Represents, Linked, Issued, SameTypes, ViewStep;
    forall r, d | r in w && 0 <= d < |w[r]| ensures AlongEdge(wfs, b, w, r, d) {
      ViewStepPrefix(v, w, a.nextSid, r, d);
      if d < |v[r]| {
        assert AlongEdge(wfs, a, v, r, d);
        OldFrameAlongEdge(wfs, a, v, b, w, r, d);
      } else {
        NewFrameAlongEdge(wfs, a, v, b, w, r, d);
      }
    }
  }

  lemma TypesStay(e: Event, a: Db, b: Db, s: Sid)
    requires WellFormedConfig(e.cfg) && s in a.sessions && s in b.sessions && CallMoves(e, a, b, s)
    ensures b.sessions[s].workflowType == a.sessions[s].workflowType
  {
  }

  /** Over every careful run on unchanged workflows below the session cap, call frames follow
      the call graph. */
  lemma {:induction false} RunsFollowGraph(wfs: Catalogue, db: Db, v: View, events: seq<Event>) returns (w: View)
    requires forall e :: e in events ==> WellFormedConfig(e.cfg) && e.cfg.workflows == wfs
    requires Good(db, v) && CarefulRun(db, events) && CallsFollowGraph(wfs, db, v)
    ensures Good(After(db, events), w) && CallsFollowGraph(wfs, After(db, events), w)
    decreases |events|
  {
    hide Good, CallsFollowGraph, ViewStep, FramesMove, Sound, CallMoves, ApplyEvicting;
    w := v;
    if events != [] {
      var b := Apply(db, events[0]).0;
      w := CallKeepsGood(db, v, events[0]);
      ApplyFrames(db, events[0]);
      GoodIsSound(db, v);
      ApplyMoves(db, events[0], {});
      forall s | s in db.sessions && s in b.sessions ensures b.sessions[s].workflowType == db.sessions[s].workflowType {
        TypesStay(events[0], db, b, s);
      }
      CallFollowsGraph(wfs, db, v, b, w);
      w := RunsFollowGraph(wfs, b, w, events[1..]);
    }
  }

  // --- What an accepted call graph bounds --------------------------------------------------------

  /** The workflow type of the session at a position. */
  ghost function TypeAt(db: Db, v: View, r: Sid, d: nat): Name
    requires Represents(db, v) && r in v && d <= |v[r]|
  {
    LocatedAt(db, v, r, d);
    db.sessions[At(v, r, d)].workflowType
  }

  /** Workflow types of the sessions at positions lo..hi of a stack. */
  ghost function Types(db: Db, v: View, r: Sid, lo: nat, hi: nat): (p: seq<Name>)
    requires Represents(db, v) && r in v && lo <= hi <= |v[r]|
    ensures |p| == hi - lo + 1
    ensures forall i :: 0 <= i < |p| ==> p[i] == TypeAt(db, v, r, lo + i)
    decreases hi - lo
  {
    if lo == hi then [TypeAt(db, v, r, hi)] else Types(db, v, r, lo, hi - 1) + [TypeAt(db, v, r, hi)]
  }

  ghost predicate CallRun(db: Db, v: View, r: Sid, lo: nat, hi: nat)
    requires r in v && lo <= hi <= |v[r]|
  {
    forall d :: lo <= d < hi ==> v[r][d] in db.frames && db.frames[v[r][d]].kind == CallFrame
  }

  lemma CallRunIsWalk(wfs: Catalogue, db: Db, v: View, r: Sid, lo: nat, hi: nat)
    requires Represents(db, v) && CallsFollowGraph(wfs, db, v) && r in v && lo <= hi <= |v[r]| && CallRun(db, v, r, lo, hi)
    ensures Walk(CallGraphOf(wfs), Types(db, v, r, lo, hi))
  {
    hide CallGraphOf;
    var p := Types(db, v, r, lo, hi);
    forall i | 0 < i < |p| ensures Link(CallGraphOf(wfs), p, i) {
      assert AlongEdge(wfs, db, v, r, lo + i - 1);
      assert At(v, r, lo + i) == v[r][lo + i - 1];
    }
  }

  lemma AcyclicWalkIsDistinct(g: Graph, p: seq<Name>)
    requires Acyclic(g) && Walk(g, p)
    ensures Distinct(p)
  {
    forall i, j | 0 <= i < j < |p| ensures p[i] != p[j] {
      if p[i] == p[j] {
        WalkPrefix(g, p, j + 1);
        WalkSuffix(g, p[..j + 1], i);
        assert ClosedWalk(g, p[..j + 1][i..]);
      }
    }
  }

  /** When the call graph has no cycle, the workflow types along a run of consecutive call
      frames are pairwise different, and the run is shorter than the number of workflows. */
  lemma CallRunsAreBounded(wfs: Catalogue, db: Db, v: View, r: Sid, lo: nat, hi: nat)
    requires Represents(db, v) && CallsFollowGraph(wfs, db, v) && Acyclic(CallGraphOf(wfs))
    requires r in v && lo < hi <= |v[r]| && CallRun(db, v, r, lo, hi)
    ensures Walk(CallGraphOf(wfs), Types(db, v, r, lo, hi))
    ensures Distinct(Types(db, v, r, lo, hi))
    ensures hi - lo < |wfs|
  {
    hide Represents, CallsFollowGraph, CallRun;
    var g, p := CallGraphOf(wfs), Types(db, v, r, lo, hi);
    CallRunIsWalk(wfs, db, v, r, lo, hi);
    AcyclicWalkIsDistinct(g, p);
    forall n | n in p ensures n in wfs.Keys {
      var i :| 0 <= i < |p| && p[i] == n;
      assert if i > 0 then Link(g, p, i) else Link(g, p, 1);
    }
    DistinctCount(p, wfs.Keys);
  }

  /** Every run of call frames in the tables has pairwise different types and fewer frames than
      there are workflows. */
  ghost predicate CallsBounded(wfs: Catalogue, db: Db, v: View)
    requires Represents(db, v)
  {
    forall r, lo, hi :: r in v && 0 <= lo < hi <= |v[r]| && CallRun(db, v, r, lo, hi) ==>
      Distinct(Types(db, v, r, lo, hi)) && hi - lo < |wfs|
  }

  /** On workflows the validator accepts, every careful run of calls from empty tables below the
      session cap leaves stacks whose runs of call frames are bounded so. */
  lemma AcceptedRunsAreBounded(wfs: Catalogue, n: nat, events: seq<Event>) returns (w: View)
    requires Accepted(wfs)
    requires forall e :: e in events ==> WellFormedConfig(e.cfg) && e.cfg.workflows == wfs
    requires CarefulRun(Db(map[], map[], n), events)
    ensures Good(After(Db(map[], map[], n), events), w) && CallsBounded(wfs, After(Db(map[], map[], n), events), w)
  {
    hide CarefulRun, After, Linked, Issued;
    var db := Db(map[], map[], n);
    EmptyIsGood(n);
    assert CallsFollowGraph(wfs, db, map[]);
    w := RunsFollowGraph(wfs, db, map[], events);
    var b := After(db, events);
    forall r, lo, hi | r in w && 0 <= lo < hi <= |w[r]| && CallRun(b, w, r, lo, hi)
      ensures Distinct(Types(b, w, r, lo, hi)) && hi - lo < |wfs|
    {
      CallRunsAreBounded(wfs, b, w, r, lo, hi);
    }
  }
}
