/** Completion goes up one level per submission. A called session that completes when its own
    child is handed over stays framed above its caller, and its artifact goes no further: when
    that happens, and that only a revision of the caller's call-step ends it. */
module Stranding {
  import opened Options
  import opened Workflows
  import opened References
  import opened Tables
  import opened StackView
  import opened StackWrites
  import opened ToolSpecs
  import opened StackSafety
  import opened Soundness
  import opened SessionMoves
  import opened ToolMoves
  import opened Nesting
  import opened Handovers
  import opened Escalation

  // --- Neighbours ---------------------------------------------------------------------------------

  lemma AboveIsUnique(db: Db, s: Sid, c: Sid)
    requires Sound(db) && ParentOf(db, c) == Some(s)
    ensures TopFrame(db, s) == Some(c) && c != s
  {
    NeighboursUnique(db, s);
    NeighboursUnique(db, c);
    assert IsTopFrame(db, s, c);
  }

  /** A session with a frame above it refuses every submission. */
  lemma PendingRefuses(cfg: Config, env: Env, db: Db, s: Sid, stepId: StepId, content: string, branch: string, artifact: string, now: int)
    requires WellFormedConfig(cfg) && TopFrame(db, s).Some?
    ensures AllMarked(cfg, db, SubmitStep(cfg, env, db, s, stepId, content, branch, artifact, now).0)
  {
    hide SubmitArtifact, SubmitContent, AllMarked, TopFrame, Stale, UniqueIds, BackwardRefs, TargetsExist, FieldRules, ForwardMcp;
    NothingMoved(db);
    RestsAreMarked(cfg, db, db);
    ResolveMarks(cfg, db, s, now);
  }

  lemma RevisionIsStep(cfg: Config, db: Db, s: Sid, stepId: StepId, now: int)
    requires WellFormedConfig(cfg) && RevisionOf(cfg, db, s, stepId, now).Some?
    ensures stepId != COMPLETE
    ensures s in db.sessions && forall k :: k in RevisionOf(cfg, db, s, stepId, now).value.1 ==>
              k in db.sessions[s].stepData && RevisionOf(cfg, db, s, stepId, now).value.1[k] == db.sessions[s].stepData[k]
  {
    hide TopFrame, Stale, BackwardRefs, TargetsExist, FieldRules, ForwardMcp;
  }

  lemma StillIsOpen(cfg: Config, a: Session, b: Session)
    requires Still(cfg, a, b) && a.currentStep != COMPLETE
    ensures b.currentStep != COMPLETE
  {
    assert WORKFLOW_CHANGED[2] != COMPLETE[2];
  }

  /** A session that is not complete does not complete while the session above it stays. */
  lemma BelowStaysOpen(db: Db, e: Event, victims: set<Sid>, s: Sid, c: Sid)
    requires WellFormedConfig(e.cfg) && Sound(db) && ParentOf(db, c) == Some(s)
    requires s in db.sessions && db.sessions[s].currentStep != COMPLETE
    requires s in ApplyEvicting(db, e, victims).0.sessions && c in ApplyEvicting(db, e, victims).0.sessions
    ensures ApplyEvicting(db, e, victims).0.sessions[s].currentStep != COMPLETE
  {
    hide SubmitStep, ReviseStep, Sound, ParentOf, RevisionOf, ParentMove, FinishOf, Still, TopFrame;
    MovesOnlyFromAbove(db, e, victims, s);
    AboveIsUnique(db, s, c);
    var a, b := db.sessions[s], ApplyEvicting(db, e, victims).0.sessions[s];
    if e.call.Revise? && e.call.s == s {
      RevisedArrives(e.cfg, db, s, e.call.stepId, e.now);
      if RevisionOf(e.cfg, db, s, e.call.stepId, e.now).Some? {
        RevisionIsStep(e.cfg, db, s, e.call.stepId, e.now);
        RevisionStep(e.cfg, db, s, e.call.stepId, e.now);
      }
    } else if e.call.Submit? && (e.call.s == s || ParentOf(db, e.call.s) == Some(s)) {
      SubmissionNearby(db, e, victims, s, c);
    }
    if Still(e.cfg, a, b) {
      StillIsOpen(e.cfg, a, b);
    }
  }

  lemma RevisionStep(cfg: Config, db: Db, s: Sid, stepId: StepId, now: int)
    ensures RevisionOf(cfg, db, s, stepId, now).Some? ==> RevisionOf(cfg, db, s, stepId, now).value.0 == stepId
  {
  }

  /** Submissions to s itself, or to the session above it, that leave the latter in place. */
  lemma SubmissionNearby(db: Db, e: Event, victims: set<Sid>, s: Sid, c: Sid)
    requires WellFormedConfig(e.cfg) && Sound(db) && ParentOf(db, c) == Some(s) && s in db.sessions
    requires e.call.Submit? && (e.call.s == s || ParentOf(db, e.call.s) == Some(s))
    requires s in ApplyEvicting(db, e, victims).0.sessions && c in ApplyEvicting(db, e, victims).0.sessions
    ensures Still(e.cfg, db.sessions[s], ApplyEvicting(db, e, victims).0.sessions[s])
  {
    hide SubmitStep, Sound, ParentOf, ParentMove, FinishOf, TopFrame, Marked, Rests, Carries;
    var Submit(x, stepId, content, branch, artifact) := e.call;
    AboveIsUnique(db, s, c);
    if x == s {
      PendingRefuses(e.cfg, e.env, db, s, stepId, content, branch, artifact, e.now);
    } else {
      AboveIsUnique(db, s, x);
      SubmitOutcome(e.cfg, e.env, db, c, s, stepId, content, branch, artifact, e.now);
    }
  }

  // --- A completed call frame ------------------------------------------------------------------------

  /** The session stands where every tool refuses it. */
  predicate Terminal(row: Session) {
    row.currentStep == COMPLETE || row.currentStep == WORKFLOW_CHANGED
  }

  /** q, called by p and still framed above it, is finished. */
  ghost predicate Stranded(db: Db, q: Sid, p: Sid) {
    && q in db.sessions && q in db.frames && db.frames[q].kind == CallFrame && ParentOf(db, q) == Some(p)
    && p in db.sessions && Terminal(db.sessions[q])
  }

  /** Every tool addressed to it refuses, and the tables stay as they are but for the terminal mark
      of a session whose stamp went stale. */
  lemma StrandedRefuses(db: Db, e: Event, victims: set<Sid>, q: Sid, p: Sid)
    requires WellFormedConfig(e.cfg) && Stranded(db, q, p) && !e.call.Start? && e.call.s == q
    ensures var (b, reply) := ApplyEvicting(db, e, victims);
            reply.Error? && (b == db || b == SetStep(db, q, WORKFLOW_CHANGED, e.now))
  {
    hide SubmitArtifact, SubmitContent, CallChild, SpawnChild, ReviseTo, ResumeOuter, TopFrame, PushFull, ParentOf, Stale, SetStep,
         StackDepth, RootOf, CountActive;
    hide UniqueIds, BackwardRefs, TargetsExist, FieldRules, ForwardMcp;
  }

  /** Its own row only ever gets the mark. */
  lemma StrandedRests(db: Db, e: Event, victims: set<Sid>, q: Sid, p: Sid)
    requires WellFormedConfig(e.cfg) && Sound(db) && Stranded(db, q, p) && q in ApplyEvicting(db, e, victims).0.sessions
    ensures Still(e.cfg, db.sessions[q], ApplyEvicting(db, e, victims).0.sessions[q])
  {
    hide ApplyEvicting, Sound, ParentOf, ParentMove, FinishOf, TopFrame, Marked, Rests, Carries;
    MovesOnlyFromAbove(db, e, victims, q);
    NeighboursUnique(db, q);
    if !e.call.Start? && e.call.s == q {
      StrandedRefuses(db, e, victims, q, p);
      MarkOnly(e.cfg, db, e, victims, q);
    } else if e.call.Submit? && ParentOf(db, e.call.s) == Some(q) {
      NothingAbove(db, e, victims, q);
    }
  }

  lemma MarkOnly(cfg: Config, db: Db, e: Event, victims: set<Sid>, q: Sid)
    requires cfg == e.cfg && WellFormedConfig(cfg) && Sound(db) && q in db.sessions && q in ApplyEvicting(db, e, victims).0.sessions
    requires q in db.frames && !e.call.Start? && e.call.s == q && Terminal(db.sessions[q]) && db.frames[q].kind == CallFrame
    ensures Still(cfg, db.sessions[q], ApplyEvicting(db, e, victims).0.sessions[q])
  {
    hide SubmitArtifact, SubmitContent, CallChild, SpawnChild, ReviseTo, ResumeOuter, TopFrame, PushFull, ParentOf,
         StackDepth, RootOf, CountActive, Sound, SetStep, Stale;
    hide UniqueIds, BackwardRefs, TargetsExist, FieldRules, ForwardMcp;
    ResolveMarks(cfg, db, q, e.now);
  }

  /** A finished session takes nothing over from a child of its own. */
  lemma NothingAbove(db: Db, e: Event, victims: set<Sid>, q: Sid)
    requires WellFormedConfig(e.cfg) && Sound(db) && q in db.sessions && Terminal(db.sessions[q])
    requires e.call.Submit? && ParentOf(db, e.call.s) == Some(q) && q in ApplyEvicting(db, e, victims).0.sessions
    ensures Still(e.cfg, db.sessions[q], ApplyEvicting(db, e, victims).0.sessions[q])
  {
    hide SubmitStep, Sound, ParentOf, ParentMove, FinishOf, TopFrame, Still, Carries;
    var Submit(c, stepId, content, branch, artifact) := e.call;
    AboveIsUnique(db, q, c);
    SubmitOutcome(e.cfg, e.env, db, c, q, stepId, content, branch, artifact, e.now);
    TerminalWithholds(e.cfg, e.env, db, c, q, FinishOf(e.cfg, e.env, db, c, stepId, content, branch, artifact, e.now), e.now);
  }

  lemma TerminalWithholds(cfg: Config, env: Env, db: Db, c: Sid, q: Sid, f: Option<Finish>, now: int)
    requires WellFormedConfig(cfg) && (f.Some? ==> WellFormedWorkflow(f.value.wf)) && q in db.sessions && Terminal(db.sessions[q])
    ensures ParentMove(cfg, env, db, c, q, f, now) == None
  {
    hide Move, FinalArtifact, BackwardRefs, TargetsExist, FieldRules, ForwardMcp, Stale, FailUpwards;
  }

  // --- It stays ------------------------------------------------------------------------------------

  /** The call revises the call-step of p. */
  ghost predicate Unlinks(db: Db, e: Event, p: Sid) {
    e.call.Revise? && e.call.s == p && RevisesCall(e.cfg, db, p, e.call.stepId, e.now)
  }

  /** Nothing was stored. */
  ghost predicate Shrinks(a: Session, b: Session) {
    forall k :: k in b.stepData ==> k in a.stepData && b.stepData[k] == a.stepData[k]
  }

  lemma InView(db: Db, v: View, r: Sid, i: nat)
    requires Represents(db, v) && r in v && i < |v[r]|
    ensures v[r][i] in db.sessions
  {
    assert FrameAt(db, v[r][i], r, i + 1);
  }

  lemma FramePlace(db: Db, v: View, q: Sid) returns (r: Sid, i: nat)
    requires Represents(db, v) && q in db.frames
    ensures r in v && i < |v[r]| && v[r][i] == q && db.frames[q].root == r && db.frames[q].depth == i + 1
  {
    assert Framed(db, v, q);
    r, i := db.frames[q].root, db.frames[q].depth - 1;
  }

  /** Tables whose stacks are those of v, or those without the top session c. */
  lemma KeptOrPoppedKeeps(db: Db, v: View, b: Db, c: Sid, q: Sid)
    requires Good(db, v) && KeptOrPopped(db, v, b, c) && q in db.frames && q != c
    ensures q in b.sessions
  {
    var r, i := FramePlace(db, v, q);
    if Good(b, v) {
      InView(b, v, r, i);
    } else {
      InView(b, Popped(v, db.frames[c].root), r, i);
    }
  }

  lemma RaisedKeeps(db: Db, v: View, b: Db, s: Sid, q: Sid)
    requires Good(db, v) && q in db.frames
    requires Good(b, v) || (RootOf(db, s) in v && Good(b, Raised(db, v, s)))
    ensures q in b.sessions
  {
    var r, i := FramePlace(db, v, q);
    if Good(b, v) {
      InView(b, v, r, i);
    } else {
      InView(b, Raised(db, v, s), r, i);
    }
  }

  lemma StartKeeps(db: Db, v: View, b: Db, q: Sid)
    requires Good(db, v) && q in db.frames
    requires b == db || Good(b, v[db.nextSid := []])
    ensures q in b.sessions
  {
    var r, i := FramePlace(db, v, q);
    if b != db {
      InView(b, v[db.nextSid := []], r, i);
    }
  }

  /** A careful call that does not revise the caller's call-step does not remove the session. */
  lemma StrandedSurvives(db: Db, v: View, e: Event, q: Sid, p: Sid)
    requires Good(db, v) && WellFormedConfig(e.cfg) && Careful(db, e.call) && Stranded(db, q, p) && !Unlinks(db, e, p)
    ensures q in Apply(db, e).0.sessions
  {
    hide Good, KeptOrPopped, RevisesCall, TopFrame, ParentOf, StackDepth;
    hide StartWorkflow, SubmitStep, ReviseStep, EnterSubWorkflow, PushFlow, PopFlow, DeleteTool;
    var b := Apply(db, e).0;
    if !e.call.Start? && e.call.s == q {
      StrandedRefuses(db, e, {}, q, p);
    } else {
      match e.call
      case Start(name) =>
        StartAddsRoot(e.cfg, e.env, db, v, name, e.now);
        StartKeeps(db, v, b, q);
      case Submit(s, stepId, content, branch, artifact) =>
        SubmitKeeps(e.cfg, e.env, db, v, s, stepId, content, branch, artifact, e.now);
        KeptOrPoppedKeeps(db, v, b, s, q);
      case Revise(s, stepId) => ReviseSurvives(e.cfg, db, v, s, stepId, q, p, e.now);
      case Enter(s, stepId) =>
        EnterPushes(e.cfg, e.env, db, v, s, stepId, e.now);
        RaisedKeeps(db, v, b, s, q);
      case Push(s, name, stepId) =>
        PushPushes(e.cfg, e.env, db, v, s, name, stepId, e.now);
        RaisedKeeps(db, v, b, s, q);
      case Pop(s) =>
        PopKeeps(e.cfg, db, v, s, e.now);
        KeptOrPoppedKeeps(db, v, b, s, q);
      case Delete(s) => DeletedOnly(db, s, q);
    }
  }

  lemma DeletedOnly(db: Db, s: Sid, q: Sid)
    requires q in db.sessions && s != q
    ensures q in DeleteTool(db, s).0.sessions
  {
  }

  lemma ReviseSurvives(cfg: Config, db: Db, v: View, s: Sid, stepId: StepId, q: Sid, p: Sid, now: int)
    requires Good(db, v) && Stranded(db, q, p) && s != q && !(s == p && RevisesCall(cfg, db, p, stepId, now))
    ensures q in ReviseStep(cfg, db, s, stepId, now).0.sessions
  {
    hide ReviseTo, Stale, ParentOf, Linked, Issued, Represents, TopFrame;
    ResolveSameShape(cfg, db, s, now);
    match Resolve(cfg, db, s, now)
    case Refused(_, _) =>
    case Ready(row, wf) =>
      if stepId != "" && ReviseRefusal(db, s, row, wf, stepId).None? {
        var i := FindStep(wf, stepId);
        NotOwnTop(db, s);
        ReviseToWrites(db, s, wf, i, now);
        ParentTopInverse(db, s, q);
      }
  }

  /** A session that stays in the tables keeps its frame and its caller. */
  lemma FrameKept(a: Db, v: View, b: Db, w: View, q: Sid)
    requires Good(a, v) && Good(b, w) && ViewStep(v, w, a.nextSid) && q in a.frames && q in b.sessions
    ensures q in b.frames && b.frames[q].root == a.frames[q].root && b.frames[q].depth == a.frames[q].depth
    ensures ParentOf(b, q) == ParentOf(a, q) && ParentOf(a, q).Some?
    ensures ParentOf(b, q).value in b.sessions
  {
    hide Linked, ViewStep, ParentOf, Represents;
    assert q < a.nextSid;
    StaysFramed(a, v, b, w, q);
    var x, j := FramePlace(b, w, q);
    ViewStepPrefix(v, w, a.nextSid, x, j);
    LocatedAt(a, v, x, j + 1);
    AccessorsAgree(a, v, x, j + 1);
    AccessorsAgree(b, w, x, j + 1);
    LocatedAt(b, w, x, j);
  }

  lemma StaysFramed(a: Db, v: View, b: Db, w: View, q: Sid)
    requires Represents(a, v) && Represents(b, w) && ViewStep(v, w, a.nextSid) && q in a.frames && q in b.sessions && q < a.nextSid
    ensures q in b.frames
  {
    assert q !in v.Keys;
    assert q !in w.Keys;
  }

  lemma KindKept(wfs: Catalogue, a: Db, b: Db, q: Sid)
    requires FramesMove(wfs, a, b) && q in a.frames && q in b.frames && q != a.nextSid
    ensures b.frames[q] == a.frames[q]
  {
  }

  /** What the caller's row can become. */
  lemma CallerShrinks(db: Db, e: Event, victims: set<Sid>, q: Sid, p: Sid)
    requires WellFormedConfig(e.cfg) && Sound(db) && Stranded(db, q, p)
    requires p in ApplyEvicting(db, e, victims).0.sessions && q in ApplyEvicting(db, e, victims).0.sessions
    ensures Shrinks(db.sessions[p], ApplyEvicting(db, e, victims).0.sessions[p])
  {
    hide SubmitStep, ReviseStep, Sound, ParentOf, RevisionOf, Still, TopFrame, Shrinks;
    MovesOnlyFromAbove(db, e, victims, p);
    var a, b := db.sessions[p], ApplyEvicting(db, e, victims).0.sessions[p];
    if e.call.Revise? && e.call.s == p {
      RevisedArrives(e.cfg, db, p, e.call.stepId, e.now);
      if RevisionOf(e.cfg, db, p, e.call.stepId, e.now).Some? {
        RevisionIsStep(e.cfg, db, p, e.call.stepId, e.now);
        ShrinksBy(a, b);
      }
    } else if e.call.Submit? && (e.call.s == p || ParentOf(db, e.call.s) == Some(p)) {
      SubmissionNearby(db, e, victims, p, q);
    }
    if Still(e.cfg, a, b) {
      StillShrinks(e.cfg, a, b);
    }
  }

  lemma ShrinksBy(a: Session, b: Session)
    requires forall k :: k in b.stepData ==> k in a.stepData && b.stepData[k] == a.stepData[k]
    ensures Shrinks(a, b)
  {
  }

  lemma StillShrinks(cfg: Config, a: Session, b: Session)
    requires Still(cfg, a, b)
    ensures Shrinks(a, b) && b.stepData == a.stepData && (Terminal(a) ==> Terminal(b))
  {
  }

  /** One careful call: the finished session stays framed above its caller, with what it has
      stored, and the caller stores nothing, unless the call revises the caller's call-step. */
  lemma StrandedCall(db: Db, v: View, e: Event, q: Sid, p: Sid) returns (w: View)
    requires Good(db, v) && WellFormedConfig(e.cfg) && Careful(db, e.call) && Stranded(db, q, p) && !Unlinks(db, e, p)
    ensures var b := Apply(db, e).0;
            && Good(b, w) && Stranded(b, q, p) && Shrinks(db.sessions[p], b.sessions[p])
            && b.sessions[q].stepData == db.sessions[q].stepData
  {
    hide Good, ViewStep, FramesMove, Careful, Unlinks, Shrinks, Still, ParentOf, ApplyEvicting, Sound;
    var b := Apply(db, e).0;
    w := CallKeepsGood(db, v, e);
    GoodIsSound(db, v);
    StrandedSurvives(db, v, e, q, p);
    FrameKept(db, v, b, w, q);
    ApplyFrames(db, e);
    OldSession(db, v, q);
    KindKept(e.cfg.workflows, db, b, q);
    StrandedRests(db, e, {}, q, p);
    StillShrinks(e.cfg, db.sessions[q], b.sessions[q]);
    CallerShrinks(db, e, {}, q, p);
  }

  lemma OldSession(db: Db, v: View, q: Sid)
    requires Good(db, v) && q in db.sessions
    ensures q != db.nextSid
  {
  }

  /** No call of the run revises the caller's call-step. */
  ghost predicate NeverUnlinks(db: Db, events: seq<Event>, p: Sid)
    requires forall e :: e in events ==> WellFormedConfig(e.cfg)
    decreases |events|
  {
    events == [] || (!Unlinks(db, events[0], p) && NeverUnlinks(Apply(db, events[0]).0, events[1..], p))
  }

  /** Over every careful run the finished session stays framed above its caller, and nothing is
      stored in the caller, so no artifact is handed over, until the caller's call-step is revised. */
  lemma {:induction false} StrandedRuns(db: Db, v: View, events: seq<Event>, q: Sid, p: Sid)
    requires forall e :: e in events ==> WellFormedConfig(e.cfg)
    requires Good(db, v) && CarefulRun(db, events) && Stranded(db, q, p) && NeverUnlinks(db, events, p)
    ensures var b := After(db, events);
            Stranded(b, q, p) && Shrinks(db.sessions[p], b.sessions[p]) && b.sessions[q].stepData == db.sessions[q].stepData
    decreases |events|
  {
    hide Good, Careful, Unlinks, Apply, ParentOf;
    if events != [] {
      var b := Apply(db, events[0]).0;
      var w := StrandedCall(db, v, events[0], q, p);
      StrandedRuns(b, w, events[1..], q, p);
    }
  }

  /** ... and that revision does remove it, artifact and all. */
  lemma UnlinkingEnds(db: Db, v: View, e: Event, q: Sid, p: Sid)
    requires Good(db, v) && WellFormedConfig(e.cfg) && Stranded(db, q, p) && Unlinks(db, e, p)
    ensures q !in Apply(db, e).0.sessions
  {
    hide ReviseStep, RevisesCall, TopFrame, ParentOf, Linked, Issued;
    ParentTopInverse(db, p, q);
    ReviseKeepsWellFormedIff(e.cfg, db, p, e.call.stepId, e.now);
  }

  // --- When it happens -------------------------------------------------------------------------------

  /** The submission hands its session over to one that completes while framed itself. */
  ghost predicate Strands(cfg: Config, env: Env, db: Db, c: Sid, stepId: StepId, content: string, branch: string, artifact: string, now: int)
    requires WellFormedConfig(cfg)
  {
    && ParentOf(db, c).Some? && ParentOf(db, ParentOf(db, c).value).Some?
    && var m := ParentMove(cfg, env, db, c, ParentOf(db, c).value, FinishOf(cfg, env, db, c, stepId, content, branch, artifact, now), now);
       m.Some? && m.value.Moved? && m.value.at == COMPLETE
  }

  /** The session is framed by a call. */
  ghost predicate Called(db: Db, s: Sid) {
    s in db.frames && db.frames[s].kind == CallFrame
  }

  lemma CompletedIsStranded(db: Db, v: View, e: Event, w: View, p: Sid, q: Sid)
    requires Good(db, v) && WellFormedConfig(e.cfg) && Good(Apply(db, e).0, w) && ViewStep(v, w, db.nextSid)
    requires p in db.sessions && ParentOf(db, p) == Some(q) && p in Apply(db, e).0.sessions
    ensures Apply(db, e).0.sessions[p].currentStep == COMPLETE && Called(db, p) ==> Stranded(Apply(db, e).0, p, q)
  {
    hide Good, ViewStep, FramesMove, ParentOf, ApplyEvicting;
    var b := Apply(db, e).0;
    if Called(db, p) {
      FrameKept(db, v, b, w, p);
      ApplyFrames(db, e);
      OldSession(db, v, p);
      KindKept(e.cfg.workflows, db, b, p);
    }
  }

  lemma AlreadyFramed(db: Db, v: View, c: Sid)
    requires Represents(db, v) && c in db.sessions
    ensures ParentOf(db, c).Some? <==> c in db.frames
    ensures ParentOf(db, c).Some? ==> ParentOf(db, c).value in db.sessions
  {
    hide ParentOf;
    Located(db, v, c);
    AccessorsAgree(db, v, RootOf(db, c), DepthOf(db, c));
    if c in db.frames {
      assert Framed(db, v, c);
      LocatedAt(db, v, RootOf(db, c), DepthOf(db, c) - 1);
    }
  }

  /** A submission is answered with the completion of a session that is still framed exactly when
      it strands that session; then the reply names the session below the submitted one, which
      stands complete where it was framed. */
  lemma CompletionIsStrandedIff(db: Db, v: View, e: Event)
    requires Good(db, v) && WellFormedConfig(e.cfg) && e.call.Submit?
    ensures var (b, reply) := Apply(db, e);
            var Submit(c, stepId, content, branch, artifact) := e.call;
            && (reply.Finished? && ParentOf(b, reply.session).Some? <==>
                  Strands(e.cfg, e.env, db, c, stepId, content, branch, artifact, e.now))
            && (reply.Finished? && ParentOf(b, reply.session).Some? ==>
                  && ParentOf(db, c) == Some(reply.session) && reply.propagated && c !in b.sessions
                  && reply.session in b.sessions && b.sessions[reply.session].currentStep == COMPLETE
                  && ParentOf(b, reply.session) == ParentOf(db, reply.session)
                  && (Called(db, reply.session) ==> Stranded(b, reply.session, ParentOf(db, reply.session).value)))
  {
    hide SubmitStep, Good, ParentOf, ParentMove, FinishOf, Carries, ViewStep, Sound, Still;
    var Submit(c, stepId, content, branch, artifact) := e.call;
    var (b, reply) := Apply(db, e);
    var w := CallKeepsGood(db, v, e);
    GoodIsSound(db, v);
    if ParentOf(db, c).Some? {
      var p := ParentOf(db, c).value;
      NeighboursUnique(db, c);
      ParentIsSession(db, v, c);
      SubmitOutcome(e.cfg, e.env, db, c, p, stepId, content, branch, artifact, e.now);
      var m := ParentMove(e.cfg, e.env, db, c, p, FinishOf(e.cfg, e.env, db, c, stepId, content, branch, artifact, e.now), e.now);
      if m.Some? {
        CompletionReply(e.cfg, db, b, c, p, m.value, reply);
        NeighbourKept(db, v, b, w, p);
        if ParentOf(db, p).Some? {
          CompletedIsStranded(db, v, e, w, p, ParentOf(db, p).value);
        }
      }
    } else {
      OwnCompletion(e.cfg, e.env, db, c, stepId, content, branch, artifact, e.now);
      if reply.Finished? {
        StillUnframed(db, v, b, w, c);
      }
    }
  }

  /** A session with nothing below it completes on its own. */
  lemma OwnCompletion(cfg: Config, env: Env, db: Db, c: Sid, stepId: StepId, content: string, branch: string, artifact: string, now: int)
    requires WellFormedConfig(cfg) && ParentOf(db, c) == None
    ensures var reply := SubmitStep(cfg, env, db, c, stepId, content, branch, artifact, now).1;
            reply.Finished? ==> c in db.sessions && reply.session == c
  {
    hide Commit, TopFrame, Stale, StoreArtifact, UniqueIds, BackwardRefs, TargetsExist, FieldRules, ForwardMcp, ParentOf;
    match Resolve(cfg, db, c, now)
    case Refused(_, _) =>
    case Ready(row, wf) =>
      if SubmitRefusal(env, db, c, row, wf, stepId, content).None? {
        var i := FindStep(wf, stepId);
        var stored := StoreArtifact(db, c, wf.steps[i].id, artifact, content, now);
        StoreArtifactSameShape(db, c, wf.steps[i].id, artifact, content, now);
        StoredParent(db, stored, c, c);
        CommitAlone(cfg, env, db, c, row, wf, i, content, branch, now);
        CommitAlone(cfg, env, stored, c, row, wf, i, content, branch, now);
        RetryAlone(db, c, wf.steps[i].id, now);
      }
  }

  lemma RetryAlone(db: Db, c: Sid, step: StepId, now: int)
    ensures !FailUpwards(IncRetry(db, c, step, now), c, ValidationError(true), now).1.Finished?
  {
  }

  lemma CommitAlone(cfg: Config, env: Env, db: Db, c: Sid, row: Session, wf: Workflow, i: nat, content: string, branch: string, now: int)
    requires WellFormedConfig(cfg) && WellFormedWorkflow(wf) && i < |wf.steps| && ParentOf(db, c) == None
    ensures var reply := Commit(cfg, env, db, c, row, wf, i, content, branch, now).1; reply.Finished? ==> reply.session == c
  {
    hide Move, WriteMovement, AutoResume, ParentOf, UniqueIds, BackwardRefs, TargetsExist, FieldRules, ForwardMcp;
    var data := row.stepData[wf.steps[i].id := content];
    var fired := FirstGuardrail(env, wf.guardrails, content, data, row, wf.steps[i].id);
    var requested := Requested(wf, i, fired, branch);
    if requested.Some? {
      var m := Move(env, wf, requested.value.0, data, requested.value.1);
      MovementSameShape(db, c, m, now);
      StoredParent(db, WriteMovement(db, c, m, now), c, c);
    }
  }

  lemma StillUnframed(a: Db, v: View, b: Db, w: View, c: Sid)
    requires Good(a, v) && Good(b, w) && ViewStep(v, w, a.nextSid) && c in a.sessions && ParentOf(a, c) == None
    ensures ParentOf(b, c) == None
  {
    hide ViewStep;
    if c in b.frames {
      NeighbourKept(a, v, b, w, c);
    }
  }

  lemma ParentIsSession(db: Db, v: View, c: Sid)
    requires Good(db, v) && ParentOf(db, c).Some?
    ensures ParentOf(db, c).value in db.sessions
  {
    AlreadyFramed(db, v, c);
  }

  lemma CompletionReply(cfg: Config, a: Db, b: Db, c: Sid, p: Sid, m: Movement, reply: Reply)
    requires Outcome(cfg, a, b, c, p, Some(m), reply)
    ensures reply.Finished? <==> m.Moved? && m.at == COMPLETE
    ensures reply.Finished? ==> reply == Finished(p, true) && b.sessions[p].currentStep == COMPLETE
  {
  }

  /** A surviving session keeps its neighbour below. */
  lemma NeighbourKept(a: Db, v: View, b: Db, w: View, p: Sid)
    requires Good(a, v) && Good(b, w) && ViewStep(v, w, a.nextSid) && p in a.sessions && p in b.sessions
    ensures ParentOf(b, p) == ParentOf(a, p)
  {
    hide ViewStep, ParentOf, Linked;
    AlreadyFramed(a, v, p);
    AlreadyFramed(b, w, p);
    if p in a.frames {
      FrameKept(a, v, b, w, p);
    } else if p in b.frames {
      StaysUnframed(a, v, b, w, p);
    }
  }

  lemma StaysUnframed(a: Db, v: View, b: Db, w: View, p: Sid)
    requires Represents(a, v) && Represents(b, w) && ViewStep(v, w, a.nextSid) && Issued(a) && p in a.sessions && p !in a.frames
    ensures p !in b.frames
  {
    hide ViewStep;
    if p in b.frames {
      var x, j := FramePlace(b, w, p);
      ViewStepPrefix(v, w, a.nextSid, x, j);
    }
  }
}
