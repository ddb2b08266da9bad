/** What every tool call keeps, careful or not, evictions included: at most one frame at a
    depth, roots that are not framed, ids that were handed out. */
module Soundness {
  import opened Options
  import opened Workflows
  import opened References
  import opened InlineExecution
  import opened Tables
  import opened StackView
  import opened StackWrites
  import opened ToolSpecs
  import opened StackSafety

  ghost predicate SoundFrames(frames: Frames, nextSid: Sid) {
    && (forall f :: f in frames ==> f < nextSid && frames[f].root < nextSid && frames[f].depth >= 1)
    && (forall f :: f in frames ==> frames[f].root !in frames)
    && (forall f, g :: f in frames && g in frames && frames[f].root == frames[g].root && frames[f].depth == frames[g].depth ==> f == g)
  }

  ghost predicate Sound(db: Db) {
    SoundFrames(db.frames, db.nextSid) && forall s :: s in db.sessions ==> s < db.nextSid
  }

  /** In sound tables the two neighbour queries have at most one answer. */
  lemma NeighboursUnique(db: Db, s: Sid)
    requires Sound(db)
    ensures forall f: Sid :: IsTopFrame(db, s, f) ==> TopFrame(db, s) == Some(f)
    ensures s in db.frames && db.frames[s].depth > 1 ==>
              forall f: Sid :: FrameAt(db, f, db.frames[s].root, db.frames[s].depth - 1) ==> ParentOf(db, s) == Some(f)
    ensures ParentOf(db, s) != Some(s)
  {
  }

  lemma GoodIsSound(db: Db, v: View)
    requires Good(db, v)
    ensures Sound(db)
  {
    forall f | f in db.frames ensures db.frames[f].depth >= 1 && db.frames[f].root !in db.frames {
      assert Framed(db, v, f);
    }
    forall f, g | f in db.frames && g in db.frames && db.frames[f].root == db.frames[g].root && db.frames[f].depth == db.frames[g].depth
      ensures f == g
    {
      OneFramePerDepth(db, v, f, g, db.frames[f].root, db.frames[f].depth);
    }
  }

  lemma SameShapeSound(a: Db, b: Db)
    requires SameShape(a, b) && Sound(a)
    ensures Sound(b)
  {
  }

  /** Rows and frames may go. */
  lemma SmallerSound(a: Db, b: Db)
    requires Sound(a) && b.nextSid == a.nextSid && b.sessions.Keys <= a.sessions.Keys && b.frames.Keys <= a.frames.Keys
    requires forall f :: f in b.frames ==> b.frames[f].root == a.frames[f].root && b.frames[f].depth == a.frames[f].depth
    ensures Sound(b)
  {
  }

  lemma UnlinkSound(db: Db, c: Sid, p: Sid, now: int)
    requires Sound(db)
    ensures Sound(Unlink(db, c, p, now))
  {
    SmallerSound(db, DeleteSession(db, c));
    SmallerSound(DeleteSession(db, c), Unlink(db, c, p, now));
  }

  lemma NoFrameAboveAfterRemoval(db: Db, victims: set<Sid>, p: Sid)
    requires Sound(db) && p in db.sessions && TopFrame(db, p) == None
    ensures var db1 := Remove(db, victims);
            && RootOf(db1, p) !in db1.frames && RootOf(db1, p) < db.nextSid
            && forall f :: f in db1.frames ==> !FrameAt(db1, f, RootOf(db1, p), DepthOf(db1, p) + 1)
  {
    var db1 := Remove(db, victims);
    forall f | f in db1.frames ensures !FrameAt(db1, f, RootOf(db1, p), DepthOf(db1, p) + 1) {
      if p in db1.frames <==> p in db.frames {
        assert !IsTopFrame(db, p, f);
      }
    }
  }

  lemma InsertedSound(frames: Frames, c: Sid, r: Sid, d: nat, fr: Frame)
    requires SoundFrames(frames, c) && r !in frames && r < c && fr.root == r && fr.depth == d >= 1
    requires forall f :: f in frames ==> !FrameIn(frames, f, r, d)
    ensures SoundFrames(frames[c := fr], c + 1)
  {
    forall f | f in frames ensures frames[f].root != c && f != c {
    }
  }

  lemma CreateChildSound(db: Db, victims: set<Sid>, target: Name, step: StepId, p: Sid, kind: FrameKind,
                         callStep: Option<StepId>, maxDepth: Option<nat>, fp: string, now: int)
    requires Sound(db) && p in db.sessions && TopFrame(db, p) == None
    ensures Sound(CreateChild(db, victims, target, step, p, kind, callStep, maxDepth, fp, now))
  {
    var db1 := Remove(db, victims);
    SmallerSound(db, db1);
    var b := CreateChild(db, victims, target, step, p, kind, callStep, maxDepth, fp, now);
    if !PushFull(db, victims, p, maxDepth) {
      NoFrameAboveAfterRemoval(db, victims, p);
      InsertedSound(db1.frames, db.nextSid, RootOf(db1, p), DepthOf(db1, p) + 1, b.frames[db.nextSid]);
    }
  }

  lemma ResumeOuterSound(cfg: Config, db: Db, child: Sid, outer: Sid, now: int)
    requires Sound(db)
    ensures Sound(ResumeOuter(cfg, db, child, outer, now).0)
  {
    ResolveSameShape(cfg, db, outer, now);
    if Resolve(cfg, db, outer, now).Ready? {
      SmallerSound(db, DeleteSession(db, child));
    } else {
      SameShapeSound(db, ResumeOuter(cfg, db, child, outer, now).0);
    }
  }

  lemma PropagateSound(cfg: Config, env: Env, db: Db, child: Sid, p: Sid, childWf: Workflow, data: StepData, now: int)
    requires Sound(db) && WellFormedConfig(cfg) && |childWf.steps| > 0
    ensures Sound(Propagate(cfg, env, db, child, p, childWf, data, now).0)
  {
    var b := Propagate(cfg, env, db, child, p, childWf, data, now).0;
    var artifact := FinalArtifact(childWf, data);
    match HandoverOf(cfg, env, db, child, p, artifact, now)
    case Withheld(_, _) =>
      WithheldSameShape(cfg, env, db, child, p, artifact, now);
      SameShapeSound(db, b);
    case Delivered(row, wf, i) =>
      UnlinkSound(db, child, p, now);
      AdvanceParentSameShape(env, Unlink(db, child, p, now), p, wf, i, row.stepData[row.currentStep := artifact], now);
      SameShapeSound(Unlink(db, child, p, now), b);
  }

  lemma CommitSound(cfg: Config, env: Env, db: Db, s: Sid, row: Session, wf: Workflow, i: nat, content: string, branch: string, now: int)
    requires Sound(db) && WellFormedConfig(cfg) && WellFormedWorkflow(wf) && i < |wf.steps|
    ensures Sound(Commit(cfg, env, db, s, row, wf, i, content, branch, now).0)
  {
    var step := wf.steps[i];
    var data := row.stepData[step.id := content];
    var fired := FirstGuardrail(env, wf.guardrails, content, data, row, step.id);
    if fired.Some? && fired.value.action.Escalate? {
      var db1 := SetEscalation(db, s, fired.value.id, now);
      SetEscalationSameShape(db, s, fired.value.id, now);
      SameShapeSound(db, db1);
      SetDataSameShape(db1, s, data, now);
      SameShapeSound(db1, SetData(db1, s, data, now));
      FailUpwardsSound(SetData(db1, s, data, now), s, Error(SessionEscalated), now);
    } else {
      var requested := Requested(wf, i, fired, branch);
      if requested.Some? {
        CommitMovementSound(cfg, env, db, s, wf, Move(env, wf, requested.value.0, data, requested.value.1), now);
      }
    }
  }

  lemma CommitMovementSound(cfg: Config, env: Env, db: Db, s: Sid, wf: Workflow, m: Movement, now: int)
    requires Sound(db) && WellFormedConfig(cfg) && |wf.steps| > 0
    ensures var db1 := WriteMovement(db, s, m, now);
            && Sound(db1)
            && Sound(FailUpwards(db1, s, Error(SkippedPredecessor), now).0)
            && (m.Moved? && ParentOf(db1, s).Some? ==>
                  Sound(AutoResume(cfg, env, db1, s, ParentOf(db1, s).value, wf, m.data, now).0))
  {
    var db1 := WriteMovement(db, s, m, now);
    MovementSameShape(db, s, m, now);
    SameShapeSound(db, db1);
    FailUpwardsSound(db1, s, Error(SkippedPredecessor), now);
    var p := ParentOf(db1, s);
    if m.Moved? && p.Some? {
      ResumeOuterSound(cfg, db1, s, p.value, now);
      PropagateSound(cfg, env, db1, s, p.value, wf, m.data, now);
    }
  }

  lemma FailUpwardsSound(db: Db, s: Sid, reply: Reply, now: int)
    requires Sound(db)
    ensures Sound(FailUpwards(db, s, reply, now).0)
  {
    FailUpwardsSameShape(db, s, reply, now);
    SameShapeSound(db, FailUpwards(db, s, reply, now).0);
  }

  lemma ResolveSound(cfg: Config, db: Db, s: Sid, now: int)
    requires Sound(db)
    ensures var a := Resolve(cfg, db, s, now); a.Refused? ==> Sound(a.db)
  {
    ResolveSameShape(cfg, db, s, now);
    var a := Resolve(cfg, db, s, now);
    if a.Refused? {
      SameShapeSound(db, a.db);
    }
  }

  lemma SubmitSound(cfg: Config, env: Env, db: Db, s: Sid, stepId: StepId, content: string, branch: string, artifact: string, now: int)
    requires Sound(db) && WellFormedConfig(cfg)
    ensures Sound(SubmitStep(cfg, env, db, s, stepId, content, branch, artifact, now).0)
  {
    hide SoundFrames, SubmitArtifact, SubmitContent, TopFrame, UniqueIds, BackwardRefs, TargetsExist, FieldRules,
         ForwardMcp;
    ResolveSound(cfg, db, s, now);
    var access := Resolve(cfg, db, s, now);
    if access.Ready? {
      var row, wf := access.session, access.wf;
      if SubmitRefusal(env, db, s, row, wf, stepId, content).None? {
        var i := FindStep(wf, stepId);
        if wf.steps[i].artifacts != [] {
          SubmitArtifactSound(cfg, env, db, s, row, wf, i, content, branch, artifact, now);
        } else {
          SubmitContentSound(cfg, env, db, s, row, wf, i, content, branch, now);
        }
      }
    }
  }

  lemma SubmitContentSound(cfg: Config, env: Env, db: Db, s: Sid, row: Session, wf: Workflow, i: nat,
                           content: string, branch: string, now: int)
    requires Sound(db) && WellFormedConfig(cfg) && WellFormedWorkflow(wf) && i < |wf.steps|
    ensures Sound(SubmitContent(cfg, env, db, s, row, wf, i, content, branch, now).0)
  {
    var db1 := IncRetry(db, s, wf.steps[i].id, now);
    IncRetrySameShape(db, s, wf.steps[i].id, now);
    SameShapeSound(db, db1);
    FailUpwardsSound(db1, s, ValidationError(true), now);
    CommitSound(cfg, env, db, s, row, wf, i, content, branch, now);
  }

  lemma SubmitArtifactSound(cfg: Config, env: Env, db: Db, s: Sid, row: Session, wf: Workflow, i: nat,
                            content: string, branch: string, artifact: string, now: int)
    requires Sound(db) && WellFormedConfig(cfg) && WellFormedWorkflow(wf) && i < |wf.steps|
    ensures Sound(SubmitArtifact(cfg, env, db, s, row, wf, i, content, branch, artifact, now).0)
  {
    hide Commit, StoreArtifact, Sound, SameShape, UniqueIds, BackwardRefs, TargetsExist, FieldRules, ForwardMcp;
    var step := wf.steps[i];
    var db1 := StoreArtifact(db, s, step.id, artifact, content, now);
    StoreArtifactSameShape(db, s, step.id, artifact, content, now);
    SameShapeSound(db, db1);
    CommitSound(cfg, env, db1, s, row, wf, i, content, branch, now);
    CommitSound(cfg, env, db, s, row, wf, i, content, branch, now);
  }

  lemma RootSound(db: Db, victims: set<Sid>, name: Name, first: StepId, fp: string, now: int)
    requires Sound(db)
    ensures Sound(CreateRoot(db, victims, name, first, fp, now))
  {
    SmallerSound(db, Remove(db, victims));
  }

  lemma StartSound(cfg: Config, env: Env, db: Db, name: Name, victims: set<Sid>, now: int)
    requires Sound(db) && WellFormedConfig(cfg)
    ensures Sound(StartWorkflow(cfg, env, db, name, victims, now).0)
  {
    hide UniqueIds, BackwardRefs, TargetsExist, FieldRules, ForwardMcp, CountActive, RunFront, SoundFrames, AutoRun;
    if name in cfg.workflows && CountActive(db) < MAX_ACTIVE {
      var wf := cfg.workflows[name];
      var first := wf.steps[0].id;
      var created := CreateRoot(db, victims, name, first, FingerprintFor(cfg, env, name), now);
      RootSound(db, victims, name, first, FingerprintFor(cfg, env, name), now);
      IncVisitSameShape(created, db.nextSid, first, now);
      var started, r := NewRoot(cfg, env, db, name, victims, now), AutoRun(env, wf, first, map[], []);
      SameShapeSound(created, started);
      RunFrontSameShape(started, db.nextSid, wf, first, r, now);
      SameShapeSound(started, RunFront(started, db.nextSid, wf, first, r, now).0);
    }
  }

  lemma SpawnSound(cfg: Config, env: Env, db: Db, victims: set<Sid>, target: Name, p: Sid, kind: FrameKind,
                   callStep: Option<StepId>, maxDepth: Option<nat>, now: int)
    requires Sound(db) && WellFormedConfig(cfg) && target in cfg.workflows && p in db.sessions && TopFrame(db, p) == None
    ensures Sound(SpawnChild(cfg, env, db, victims, target, p, kind, callStep, maxDepth, now))
  {
    var first, fp := cfg.workflows[target].steps[0].id, FingerprintFor(cfg, env, target);
    CreateChildSound(db, victims, target, first, p, kind, callStep, maxDepth, fp, now);
    var created := CreateChild(db, victims, target, first, p, kind, callStep, maxDepth, fp, now);
    IncVisitSameShape(created, db.nextSid, first, now);
    SameShapeSound(created, SpawnChild(cfg, env, db, victims, target, p, kind, callStep, maxDepth, now));
  }

  lemma CallChildSound(cfg: Config, env: Env, db: Db, victims: set<Sid>, target: Name, p: Sid, stepId: StepId, now: int)
    requires Sound(db) && WellFormedConfig(cfg) && target in cfg.workflows && p in db.sessions && TopFrame(db, p) == None
    ensures Sound(CallChild(cfg, env, db, victims, target, p, stepId, now))
  {
    SpawnSound(cfg, env, db, victims, target, p, CallFrame, None, None, now);
    LinkSound(SpawnChild(cfg, env, db, victims, target, p, CallFrame, None, None, now), p, db.nextSid, stepId, now);
  }

  lemma LinkSound(db: Db, p: Sid, c: Sid, stepId: StepId, now: int)
    requires Sound(db)
    ensures Sound(LinkCalled(db, p, c, stepId, now))
  {
    SmallerSound(db, LinkCalled(db, p, c, stepId, now));
  }

  lemma EnterSound(cfg: Config, env: Env, db: Db, p: Sid, stepId: StepId, victims: set<Sid>, now: int)
    requires Sound(db) && WellFormedConfig(cfg)
    ensures Sound(EnterSubWorkflow(cfg, env, db, p, stepId, victims, now).0)
  {
    hide SoundFrames, CallChild, ResolveRef, UniqueIds, BackwardRefs, TargetsExist, FieldRules, ForwardMcp;
    ResolveSound(cfg, db, p, now);
    var access := Resolve(cfg, db, p, now);
    if access.Ready? && EnterRefusal(cfg, env, db, p, access.session, access.wf, stepId).None? {
      CallChildSound(cfg, env, db, victims, access.wf.steps[FindStep(access.wf, stepId)].call.value, p, stepId, now);
    }
  }

  lemma PushSound(cfg: Config, env: Env, db: Db, s: Sid, name: Name, pausedAt: StepId, victims: set<Sid>, now: int)
    requires Sound(db) && WellFormedConfig(cfg)
    ensures Sound(PushFlow(cfg, env, db, s, name, pausedAt, victims, now).0)
  {
    hide SoundFrames, SpawnChild, StackDepth, CountActive, PushFull, UniqueIds, BackwardRefs, TargetsExist,
         FieldRules, ForwardMcp;
    ResolveSound(cfg, db, s, now);
    var access := Resolve(cfg, db, s, now);
    if access.Ready? && PushRefusal(cfg, db, s, access.session, name, pausedAt).None? {
      SpawnSound(cfg, env, db, victims, name, s, DigressionFrame, Some(pausedAt), Some(MAX_STACK_DEPTH), now);
    }
  }

  lemma ReviseSound(cfg: Config, db: Db, s: Sid, stepId: StepId, now: int)
    requires Sound(db)
    ensures Sound(ReviseStep(cfg, db, s, stepId, now).0)
  {
    ResolveSound(cfg, db, s, now);
    var access := Resolve(cfg, db, s, now);
    if access.Ready? && ReviseRefusal(db, s, access.session, access.wf, stepId).None? {
      var wf := access.wf;
      var i := FindStep(wf, stepId);
      var db1 := DropData(db, s, StepsAfter(wf, i), now);
      ReviseShape(db, s, wf, i, now);
      SameShapeSound(db, db1);
      if wf.steps[i].call.Some? && TopFrame(db, s).Some? {
        var c := TopFrame(db, s).value;
        UnlinkSound(db1, c, s, now);
        SameShapeSound(Unlink(db1, c, s, now), ReviseTo(db, s, wf, i, now));
      } else {
        SameShapeSound(db1, ReviseTo(db, s, wf, i, now));
      }
    }
  }

  lemma PopSound(cfg: Config, db: Db, s: Sid, now: int)
    requires Sound(db)
    ensures Sound(PopFlow(cfg, db, s, now).0)
  {
    ResolveSound(cfg, db, s, now);
    var p := ParentOf(db, s);
    if p.Some? {
      ResumeOuterSound(cfg, db, s, p.value, now);
    }
  }

  lemma DeleteSound(db: Db, s: Sid)
    requires Sound(db)
    ensures Sound(DeleteTool(db, s).0)
  {
    SmallerSound(db, DeleteSession(db, s));
  }
}
