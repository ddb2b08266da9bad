/** Workflow versioning (ADR-001): a session whose stamp is not the live fingerprint makes no
    progress, and its terminal mark is final. */
module Versioning {
  import opened Options
  import opened Workflows
  import opened Tables
  import opened ToolSpecs
  import opened StackSafety
  import opened Soundness
  import opened SessionMoves
  import opened ToolMoves

  /** The session's workflow is loaded and its stamp is the live one. */
  ghost predicate Current(cfg: Config, row: Session) {
    row.workflowType in cfg.workflows && !Stale(cfg, row)
  }

  /** At most the terminal mark was written. */
  ghost predicate Frozen(a: Session, b: Session) {
    && SameIdentity(a, b) && b.stepData == a.stepData
    && (b.currentStep == a.currentStep || b.currentStep == WORKFLOW_CHANGED)
  }

  lemma NotLiveIsFrozen(e: Event, a: Db, b: Db, s: Sid)
    requires WellFormedConfig(e.cfg) && s in a.sessions && s in b.sessions && CallMoves(e, a, b, s) && !Live(e.cfg, a.sessions[s])
    ensures Frozen(a.sessions[s], b.sessions[s])
  {
  }

  /** No call on any session makes a session progress whose stamp is not current. */
  lemma CallFreezes(db: Db, t: Tick, s: Sid)
    requires WellFormedConfig(t.event.cfg) && Sound(db)
    requires s in db.sessions && s in AfterTick(db, t).sessions && !Live(t.event.cfg, db.sessions[s])
    ensures Frozen(db.sessions[s], AfterTick(db, t).sessions[s])
  {
    ApplyMoves(db, t.event, t.victims);
    NotLiveIsFrozen(t.event, db, AfterTick(db, t), s);
  }

  /** While no call of a run meets a live map that agrees with the session's stamp, its step
      data and position stay, or the position becomes the terminal mark. */
  lemma {:induction false} FrozenWhileStale(db: Db, ticks: seq<Tick>, s: Sid)
    requires Sound(db) && Loaded(ticks) && Survives(db, ticks, s)
    requires forall t :: t in ticks ==> !Current(t.event.cfg, db.sessions[s])
    ensures s in AfterAll(db, ticks).sessions && Frozen(db.sessions[s], AfterAll(db, ticks).sessions[s])
    decreases |ticks|
  {
    if ticks != [] {
      CallFreezes(db, ticks[0], s);
      ApplySound(db, ticks[0].event, ticks[0].victims);
      FrozenWhileStale(AfterTick(db, ticks[0]), ticks[1..], s);
    }
  }

  /** Once the mark is written it stays until the session is removed, whatever the live maps
      become and whatever finishes above or beneath the session. */
  lemma {:induction false} MarkIsFinal(db: Db, ticks: seq<Tick>, s: Sid)
    requires Sound(db) && Loaded(ticks) && Survives(db, ticks, s)
    requires db.sessions[s].currentStep == WORKFLOW_CHANGED
    ensures s in AfterAll(db, ticks).sessions
    ensures AfterAll(db, ticks).sessions[s].currentStep == WORKFLOW_CHANGED
    ensures AfterAll(db, ticks).sessions[s].stepData == db.sessions[s].stepData
    decreases |ticks|
  {
    if ticks != [] {
      CallFreezes(db, ticks[0], s);
      ApplySound(db, ticks[0].event, ticks[0].victims);
      MarkIsFinal(AfterTick(db, ticks[0]), ticks[1..], s);
    }
  }

  /** The session a call is addressed to, when the tool resolves it. */
  function Addressed(c: Call): Option<Sid> {
    match c
    case Submit(s, _, _, _, _) => Some(s)
    case Revise(s, _) => Some(s)
    case Enter(s, _) => Some(s)
    case Push(s, _, _) => Some(s)
    case Pop(s) => Some(s)
    case _ => None
  }

  /** A call whose session does not resolve comes to what resolving it came to. */
  lemma RefusedOutright(db: Db, e: Event, victims: set<Sid>, s: Sid)
    requires WellFormedConfig(e.cfg) && Addressed(e.call) == Some(s) && Resolve(e.cfg, db, s, e.now).Refused?
    ensures ApplyEvicting(db, e, victims) ==
            if EmptyArgument(e.call) then (db, Error(InvalidArgument))
            else (Resolve(e.cfg, db, s, e.now).db, Error(Resolve(e.cfg, db, s, e.now).code))
  {
    hide Resolve, WellFormedWorkflow, SubmitRefusal, EnterRefusal, PushRefusal, ReviseRefusal, SubmitArtifact, SubmitContent, SpawnChild,
         CallChild, ReviseTo, ResumeOuter, ParentOf, PushFull;
  }

  /** A call addressed to a session of a loaded workflow that is stale or already marked only
      writes the mark and answers workflow_changed; an empty argument is refused before that and
      changes nothing. */
  lemma AddressedIsMarked(db: Db, t: Tick, s: Sid)
    requires WellFormedConfig(t.event.cfg) && Addressed(t.event.call) == Some(s)
    requires s in db.sessions && db.sessions[s].workflowType in t.event.cfg.workflows && !Live(t.event.cfg, db.sessions[s])
    ensures var (b, reply) := ApplyEvicting(db, t.event, t.victims);
            if EmptyArgument(t.event.call) then b == db && reply == Error(InvalidArgument)
            else
              && reply == Error(WorkflowChanged)
              && b.frames == db.frames && s in b.sessions && b.sessions[s].currentStep == WORKFLOW_CHANGED
              && OthersSame(db, b, s) && Frozen(db.sessions[s], b.sessions[s])
  {
    hide ApplyEvicting, WellFormedConfig, OthersSame, Frozen;
    RefusedOutright(db, t.event, t.victims, s);
    MarkedOnly(t.event.cfg, db, s, t.event.now);
  }

  lemma MarkedOnly(cfg: Config, db: Db, s: Sid, now: int)
    requires s in db.sessions && db.sessions[s].workflowType in cfg.workflows && !Live(cfg, db.sessions[s])
    ensures var a := Resolve(cfg, db, s, now);
            && a.Refused? && a.code == WorkflowChanged && a.db.frames == db.frames
            && s in a.db.sessions && a.db.sessions[s].currentStep == WORKFLOW_CHANGED
            && OthersSame(db, a.db, s) && Frozen(db.sessions[s], a.db.sessions[s])
  {
  }
}
