/** The dry-run client, megalos_server/dryrun.py: it keeps its own stack from the replies alone
    and never asks the server for state. The loop is proved to stay in step with the server. */
module DryRun {
  import opened Options
  import opened Workflows
  import opened References
  import opened Tables
  import opened Sequences
  import opened StackView
  import opened StackWrites
  import opened ToolSpecs
  import opened StackSafety
  import opened Soundness
  import opened SessionMoves
  import opened ToolMoves
  import opened CallGraph
  import opened Nesting
  import opened ReplySemantics
  import opened Handovers
  import opened Escalation
  import opened Stranding
  import opened Contents
  import opened StoreMeaning
  import opened Engines

  /** A frame of the client's own stack. */
  datatype ClientFrame = ClientFrame(session: Sid, wf: Workflow, prevStep: int, callStep: Option<StepId>)

  /** What the operator types at a prompt: the content, and the resolved branch choice. */
  datatype Input = Input(response: string, branch: string)

  /** exit 0 at workflow_complete; exit 1 at an error, at the end of the input, or by an exception. */
  datatype Exit = Completed | Failed | Aborted

  // --- In step with the server -----------------------------------------------------------------

  ghost predicate SyncedAt(cfg: Config, db: Db, v: View, stack: seq<ClientFrame>, types: seq<Name>, i: nat)
    requires |types| == |stack| && i < |stack| && stack[0].session in v && |v[stack[0].session]| == |stack| - 1
  {
    var s := stack[i].session;
    && s == At(v, stack[0].session, i) && s in db.sessions && types[i] in cfg.workflows
    && db.sessions[s].workflowType == types[i] && stack[i].wf == cfg.workflows[types[i]]
    && (i > 0 ==> s in db.frames && db.frames[s].kind == CallFrame)
  }

  /** The client's stack is its root followed by the server's frames by depth, all of them call
      frames along the call graph, and there is room under the session cap for as many more. */
  ghost predicate Synced(cfg: Config, cap: int, db: Db, v: View, stack: seq<ClientFrame>, types: seq<Name>) {
    && Good(db, v) && |stack| > 0 && |types| == |stack|
    && stack[0].session in v && |v[stack[0].session]| == |stack| - 1
    && (forall i :: 0 <= i < |stack| ==> SyncedAt(cfg, db, v, stack, types, i))
    && Walk(CallGraphOf(cfg.workflows), types)
    && |db.sessions| + |cfg.workflows| <= cap + |stack|
  }

  function TopOf(stack: seq<ClientFrame>): ClientFrame
    requires stack != []
  {
    stack[|stack| - 1]
  }

  /** s is not complete while c is there. */
  ghost predicate OpenBelow(db: Db, s: Sid, c: Sid) {
    s in db.sessions && c in db.sessions ==> db.sessions[s].currentStep != COMPLETE
  }

  /** No session of the client's stack with another above it is complete. */
  ghost predicate Pending(db: Db, stack: seq<ClientFrame>) {
    forall i :: 0 < i < |stack| ==> OpenBelow(db, stack[i - 1].session, stack[i].session)
  }

  /** The client's stack is the server's and the session on top of it is complete. */
  ghost predicate Done(cfg: Config, cap: int, db: Db, v: View, stack: seq<ClientFrame>, types: seq<Name>) {
    && stack != [] && |types| == |stack| && Synced(cfg, cap, db, v, stack, types) && Pending(db, stack)
    && TopOf(stack).session in db.sessions && db.sessions[TopOf(stack).session].currentStep == COMPLETE
  }

  ghost predicate InStep(cfg: Config, cap: int, db: Db, v: View, stack: seq<ClientFrame>, types: seq<Name>, step: StepId, target: Option<Name>) {
    && stack != [] && |types| == |stack| && Synced(cfg, cap, db, v, stack, types) && Pending(db, stack)
    && StandsAt(cfg, db, TopOf(stack).session, step, target)
  }

  /** What the last reply means at the head of the loop, before the client has popped the child
      it reports as returned. Errors, completion and exceptions end the loop. */
  ghost predicate Answered(cfg: Config, cap: int, db: Db, v: View, stack: seq<ClientFrame>, types: seq<Name>, stepId: StepId, envelope: Reply) {
    stack != [] && |types| == |stack| &&
    match envelope
    case Advanced(x, step, target, propagated) =>
      if propagated then
        && |stack| >= 2 && TopOf(stack).session != x && TopOf(stack[..|stack| - 1]).session == x
        && InStep(cfg, cap, db, v, stack[..|stack| - 1], types[..|types| - 1], step, target)
      else TopOf(stack).session == x && InStep(cfg, cap, db, v, stack, types, step, target)
    case Started(x, step) =>
      TopOf(stack).session == x && InStep(cfg, cap, db, v, stack, types, step, CallTargetOf(TopOf(stack).wf, step))
    case Entered(x, _, step) =>
      TopOf(stack).session == x && InStep(cfg, cap, db, v, stack, types, step, CallTargetOf(TopOf(stack).wf, step))
    case ValidationError(exhausted) => !exhausted ==> InStep(cfg, cap, db, v, stack, types, stepId, None)
    case Finished(x, propagated) =>
      if propagated then
        && |stack| >= 2 && TopOf(stack).session != x && TopOf(stack[..|stack| - 1]).session == x
        && Done(cfg, cap, db, v, stack[..|stack| - 1], types[..|types| - 1])
      else |stack| == 1 && TopOf(stack).session == x && Done(cfg, cap, db, v, stack, types)
    case Error(_) => true
    case Crash => true
    case _ => false
  }

  /** The accessors at the top of a stack. */
  lemma TopPosition(db: Db, v: View, r: Sid, n: nat)
    requires Represents(db, v) && r in v && n == |v[r]|
    ensures var s := At(v, r, n);
            && TopFrame(db, s) == None && s in db.sessions && RootOf(db, s) == r
            && ParentOf(db, s) == (if n == 0 then None else Some(At(v, r, n - 1)))
            && (n == 0 ==> s !in db.frames)
  {
    AccessorsAgree(db, v, r, n);
    LocatedAt(db, v, r, n);
  }

  lemma TopIsOnTop(cfg: Config, cap: int, db: Db, v: View, stack: seq<ClientFrame>, types: seq<Name>)
    requires Synced(cfg, cap, db, v, stack, types)
    ensures TopFrame(db, TopOf(stack).session) == None
    ensures TopOf(stack).session in db.sessions && RootOf(db, TopOf(stack).session) == stack[0].session
    ensures |stack| > 1 ==> ParentOf(db, TopOf(stack).session) == Some(stack[|stack| - 2].session)
    ensures |stack| == 1 ==> TopOf(stack).session !in db.frames && ParentOf(db, TopOf(stack).session) == None
    ensures |stack| > 1 ==> TopOf(stack).session in db.frames && db.frames[TopOf(stack).session].kind == CallFrame
  {
    hide Synced, Represents, TopFrame, ParentOf, RootIn, SyncedAt, At;
    var n := |stack| - 1;
    SyncedShape(cfg, cap, db, v, stack, types);
    SyncedPosition(cfg, db, v, stack, types, n);
    TopPosition(db, v, stack[0].session, n);
    if n > 0 {
      SyncedPosition(cfg, db, v, stack, types, n - 1);
    }
  }

  lemma SyncedShape(cfg: Config, cap: int, db: Db, v: View, stack: seq<ClientFrame>, types: seq<Name>)
    requires Synced(cfg, cap, db, v, stack, types)
    ensures Represents(db, v) && |types| == |stack| > 0 && stack[0].session in v && |v[stack[0].session]| == |stack| - 1
    ensures forall i :: 0 <= i < |stack| ==> SyncedAt(cfg, db, v, stack, types, i)
  {
    hide Represents, CallGraphOf, Walk, SyncedAt;
  }

  lemma SyncedPosition(cfg: Config, db: Db, v: View, stack: seq<ClientFrame>, types: seq<Name>, i: nat)
    requires |types| == |stack| && i < |stack| && stack[0].session in v && |v[stack[0].session]| == |stack| - 1
    requires SyncedAt(cfg, db, v, stack, types, i)
    ensures stack[i].session == At(v, stack[0].session, i)
    ensures i > 0 ==> stack[i].session in db.frames && db.frames[stack[i].session].kind == CallFrame
    ensures i == 0 ==> At(v, stack[0].session, i) == stack[0].session
  {
  }

  /** The walk of types leaves room for one more call. */
  lemma RoomToDescend(cfg: Config, cap: int, db: Db, v: View, stack: seq<ClientFrame>, types: seq<Name>, step: StepId, target: Name)
    requires InStep(cfg, cap, db, v, stack, types, step, Some(target)) && target in cfg.workflows
    requires Acyclic(CallGraphOf(cfg.workflows))
    ensures Walk(CallGraphOf(cfg.workflows), types + [target])
    ensures |stack| < |cfg.workflows|
  {
    var g, n := CallGraphOf(cfg.workflows), |stack| - 1;
    assert SyncedAt(cfg, db, v, stack, types, n);
    var wf := cfg.workflows[types[n]];
    assert wf.steps[FindStep(wf, step)] in wf.steps;
    assert Edge(g, types[n], target);
    WalkSnoc(g, types, target);
    AcyclicWalkIsDistinct(g, types + [target]);
    forall t | t in types + [target] ensures t in cfg.workflows.Keys {
      if t in types {
        var i :| 0 <= i < |types| && types[i] == t;
        assert SyncedAt(cfg, db, v, stack, types, i);
      }
    }
    DistinctCount(types + [target], cfg.workflows.Keys);
  }

  // --- The server's step keeps the client in step ----------------------------------------------------

  ghost predicate OnlyFewer(a: Db, b: Db) {
    && SubFrames(a, b)
    && forall s :: s in b.sessions ==> s in a.sessions && b.sessions[s].workflowType == a.sessions[s].workflowType
  }

  lemma FewerSessions(a: Db, b: Db)
    requires OnlyFewer(a, b)
    ensures |b.sessions| <= |a.sessions|
    ensures forall s :: s in a.sessions && s !in b.sessions ==> |b.sessions| < |a.sessions|
  {
    SubsetSize(b.sessions.Keys, a.sessions.Keys);
    forall s | s in a.sessions && s !in b.sessions ensures |b.sessions| < |a.sessions| {
      SubsetSize(b.sessions.Keys, a.sessions.Keys - {s});
    }
  }

  lemma SyncedKept(cfg: Config, cap: int, a: Db, v: View, b: Db, stack: seq<ClientFrame>, types: seq<Name>)
    requires Synced(cfg, cap, a, v, stack, types) && Good(b, v) && OnlyFewer(a, b)
    ensures Synced(cfg, cap, b, v, stack, types)
  {
    FewerSessions(a, b);
    forall i | 0 <= i < |stack| ensures SyncedAt(cfg, b, v, stack, types, i) {
      KeptAt(cfg, a, v, b, v, stack, types, stack, types, i);
    }
  }

  lemma KeptAt(cfg: Config, a: Db, v: View, b: Db, w: View, stack: seq<ClientFrame>, types: seq<Name>,
               stack': seq<ClientFrame>, types': seq<Name>, i: nat)
    requires |types| == |stack| && i < |stack| && stack[0].session in v && |v[stack[0].session]| == |stack| - 1
    requires |types'| == |stack'| && i < |stack'| && stack'[0].session in w && |w[stack'[0].session]| == |stack'| - 1
    requires SyncedAt(cfg, a, v, stack, types, i) && Represents(b, w)
    requires forall s :: s in a.sessions && s in b.sessions ==> b.sessions[s].workflowType == a.sessions[s].workflowType
    requires forall f :: f in a.frames && f in b.frames ==> a.frames[f].kind == b.frames[f].kind
    requires stack'[0].session == stack[0].session && stack'[i].session == stack[i].session && stack'[i].wf == stack[i].wf
    requires types'[i] == types[i] && At(w, stack[0].session, i) == At(v, stack[0].session, i)
    ensures SyncedAt(cfg, b, w, stack', types', i)
  {
    LocatedAt(b, w, stack[0].session, i);
    if i > 0 {
      assert FrameAt(b, w[stack[0].session][i - 1], stack[0].session, i - 1 + 1);
    }
  }

  lemma SyncedPopped(cfg: Config, cap: int, a: Db, v: View, b: Db, stack: seq<ClientFrame>, types: seq<Name>)
    requires Synced(cfg, cap, a, v, stack, types) && |stack| > 1 && OnlyFewer(a, b)
    requires TopOf(stack).session !in b.sessions && Good(b, Popped(v, stack[0].session))
    ensures Synced(cfg, cap, b, Popped(v, stack[0].session), stack[..|stack| - 1], types[..|types| - 1])
  {
    hide Represents, Linked, Issued, CallGraphOf, Walk, SyncedAt, TopFrame, ParentOf;
    var w, below, types' := Popped(v, stack[0].session), stack[..|stack| - 1], types[..|types| - 1];
    TopIsOnTop(cfg, cap, a, v, stack, types);
    FewerSessions(a, b);
    WalkPrefix(CallGraphOf(cfg.workflows), types, |types| - 1);
    forall i | 0 <= i < |below| ensures SyncedAt(cfg, b, w, below, types', i) {
      assert SyncedAt(cfg, a, v, stack, types, i);
      KeptAt(cfg, a, v, b, w, stack, types, below, types', i);
    }
  }

  /** The session that left the stack is in the tables no more. */
  lemma PoppedIsGone(db: Db, v: View, b: Db, s: Sid)
    requires Good(db, v) && s in db.frames && TopFrame(db, s) == None
    requires db.frames[s].root in v && v[db.frames[s].root] != [] && Good(b, Popped(v, db.frames[s].root))
    ensures s !in b.sessions
  {
    var r := db.frames[s].root;
    var w := Popped(v, r);
    Located(db, v, s);
    AccessorsAgree(db, v, r, DepthOf(db, s));
    if s in b.sessions {
      Located(b, w, s);
      var q, d := RootOf(b, s), DepthOf(b, s);
      assert At(w, q, d) == At(v, q, d);
      LocatedAt(db, v, q, d);
    }
  }

  lemma SubmitSurvivors(cfg: Config, env: Env, db: Db, s: Sid, stepId: StepId, content: string, branch: string, now: int)
    requires WellFormedConfig(cfg) && Sound(db)
    ensures OnlyFewer(db, SubmitStep(cfg, env, db, s, stepId, content, branch, "", now).0)
  {
    hide Moves, SubmitStep, SubFrames;
    var b := SubmitStep(cfg, env, db, s, stepId, content, branch, "", now).0;
    SubmitFrames(cfg, env, db, s, stepId, content, branch, "", now);
    SubmitMoves(cfg, env, db, s, stepId, content, branch, "", now);
    forall o | o in b.sessions ensures o in db.sessions && b.sessions[o].workflowType == db.sessions[o].workflowType {
      MovesType(cfg, env, db.sessions[o], b.sessions[o]);
    }
  }

  lemma MovesType(cfg: Config, env: Env, a: Session, b: Session)
    requires WellFormedConfig(cfg) && Moves(cfg, env, a, b)
    ensures b.workflowType == a.workflowType
  {
  }

  lemma SubmitKeepsStep(cfg: Config, env: Env, cap: int, db: Db, v: View, stack: seq<ClientFrame>, types: seq<Name>,
                        stepId: StepId, content: string, branch: string, now: int) returns (w: View)
    requires WellFormedConfig(cfg) && InStep(cfg, cap, db, v, stack, types, stepId, None)
    ensures var (b, reply) := SubmitStep(cfg, env, db, TopOf(stack).session, stepId, content, branch, "", now);
            && !Desynced(reply) && Good(b, w)
            && Answered(cfg, cap, b, w, stack, types, stepId, reply)
  {
    hide Synced, StandsAt, Tells, Good, SubmitStep, OnlyFewer, KeptOrPopped;
    var s := TopOf(stack).session;
    SyncedGood(cfg, cap, db, v, stack, types);
    GoodIsSound(db, v);
    TopIsOnTop(cfg, cap, db, v, stack, types);
    SubmitTells(cfg, env, db, s, stepId, content, branch, now);
    SubmitKeeps(cfg, env, db, v, s, stepId, content, branch, "", now);
    SubmitSurvivors(cfg, env, db, s, stepId, content, branch, now);
    PendingKept(cfg, cap, db, v, stack, types, Event(cfg, env, now, Submit(s, stepId, content, branch, "")));
    var (b, reply) := SubmitStep(cfg, env, db, s, stepId, content, branch, "", now);
    w := AnsweredAfter(cfg, cap, db, v, b, stack, types, stepId, reply);
  }

  /** One call keeps every session of the stack open that still has the one above it. */
  lemma PendingKept(cfg: Config, cap: int, db: Db, v: View, stack: seq<ClientFrame>, types: seq<Name>, e: Event)
    requires WellFormedConfig(e.cfg) && Synced(cfg, cap, db, v, stack, types) && Pending(db, stack)
    ensures Pending(Apply(db, e).0, stack)
  {
    hide Good, CallGraphOf, Walk, ParentOf, ApplyEvicting, Sound;
    var b := Apply(db, e).0;
    GoodIsSound(db, v);
    forall i | 0 < i < |stack| ensures OpenBelow(b, stack[i - 1].session, stack[i].session) {
      var s, c := stack[i - 1].session, stack[i].session;
      assert SyncedAt(cfg, db, v, stack, types, i) && SyncedAt(cfg, db, v, stack, types, i - 1);
      assert OpenBelow(db, s, c);
      ParentAt(db, v, stack[0].session, i);
      if s in b.sessions && c in b.sessions {
        BelowStaysOpen(db, e, {}, s, c);
      }
    }
  }

  lemma ParentAt(db: Db, v: View, r: Sid, i: nat)
    requires Good(db, v) && r in v && 0 < i <= |v[r]|
    ensures ParentOf(db, At(v, r, i)) == Some(At(v, r, i - 1))
  {
    AccessorsAgree(db, v, r, i);
  }

  lemma SyncedGood(cfg: Config, cap: int, db: Db, v: View, stack: seq<ClientFrame>, types: seq<Name>)
    requires Synced(cfg, cap, db, v, stack, types)
    ensures Good(db, v) && |stack| > 0 && |types| == |stack|
  {
  }

  lemma AnsweredAfter(cfg: Config, cap: int, db: Db, v: View, b: Db, stack: seq<ClientFrame>, types: seq<Name>,
                      stepId: StepId, reply: Reply) returns (w: View)
    requires InStep(cfg, cap, db, v, stack, types, stepId, None) && Good(db, v)
    requires Tells(cfg, db, b, TopOf(stack).session, reply) && KeptOrPopped(db, v, b, TopOf(stack).session) && OnlyFewer(db, b)
    requires Pending(b, stack)
    ensures !Desynced(reply) && Good(b, w) && Answered(cfg, cap, b, w, stack, types, stepId, reply)
  {
    hide Synced, Good, ParentOf, TopFrame, SubFrames, Tells, Answered, Desynced, StandsAt, Pending;
    w := v;
    if Good(b, v) {
      AnsweredKept(cfg, cap, db, v, b, stack, types, stepId, reply);
    } else {
      w := Popped(v, db.frames[TopOf(stack).session].root);
      AnsweredPopped(cfg, cap, db, v, b, stack, types, stepId, reply);
    }
  }

  lemma AnsweredKept(cfg: Config, cap: int, db: Db, v: View, b: Db, stack: seq<ClientFrame>, types: seq<Name>, stepId: StepId, reply: Reply)
    requires InStep(cfg, cap, db, v, stack, types, stepId, None) && Good(b, v) && OnlyFewer(db, b) && Pending(b, stack)
    requires Tells(cfg, db, b, TopOf(stack).session, reply)
    ensures !Desynced(reply) && Answered(cfg, cap, b, v, stack, types, stepId, reply)
  {
    hide Synced, Good, ParentOf, TopFrame, SubFrames, OpenBelow, Pending, RootIn;
    TopIsOnTop(cfg, cap, db, v, stack, types);
    if |stack| > 1 {
      TopsDiffer(cfg, cap, db, v, stack, types);
    }
    SyncedKept(cfg, cap, db, v, b, stack, types);
    TopIsOnTop(cfg, cap, b, v, stack, types);
  }

  lemma AnsweredPopped(cfg: Config, cap: int, db: Db, v: View, b: Db, stack: seq<ClientFrame>, types: seq<Name>, stepId: StepId, reply: Reply)
    requires InStep(cfg, cap, db, v, stack, types, stepId, None) && Good(db, v) && OnlyFewer(db, b) && Pending(b, stack)
    requires KeptOrPopped(db, v, b, TopOf(stack).session) && !Good(b, v) && Tells(cfg, db, b, TopOf(stack).session, reply)
    ensures !Desynced(reply) && Answered(cfg, cap, b, Popped(v, db.frames[TopOf(stack).session].root), stack, types, stepId, reply)
  {
    hide Synced, Good, ParentOf, TopFrame, SubFrames, OpenBelow;
    TopIsOnTop(cfg, cap, db, v, stack, types);
    PoppedIsGone(db, v, b, TopOf(stack).session);
    if |stack| > 1 {
      TopsDiffer(cfg, cap, db, v, stack, types);
      SyncedPopped(cfg, cap, db, v, b, stack, types);
    }
  }

  lemma TopsDiffer(cfg: Config, cap: int, db: Db, v: View, stack: seq<ClientFrame>, types: seq<Name>)
    requires Synced(cfg, cap, db, v, stack, types) && |stack| > 1
    ensures TopOf(stack).session != stack[|stack| - 2].session
  {
    hide Linked, Issued, CallGraphOf, Walk;
    var n := |stack| - 1;
    assert SyncedAt(cfg, db, v, stack, types, n) && SyncedAt(cfg, db, v, stack, types, n - 1);
    LocatedAt(db, v, stack[0].session, n);
    LocatedAt(db, v, stack[0].session, n - 1);
  }

  // --- Descending ----------------------------------------------------------------------------------------

  /** One session appeared, above the top of the client's stack. */
  ghost predicate OneMore(a: Db, b: Db) {
    && (forall f :: f in b.frames && f != a.nextSid ==> f in a.frames && b.frames[f] == a.frames[f])
    && (forall s :: s in b.sessions && s != a.nextSid ==> s in a.sessions && b.sessions[s].workflowType == a.sessions[s].workflowType)
  }

  lemma OneMoreKept(a: Db, v: View, b: Db)
    requires OneMore(a, b) && Good(a, v)
    ensures forall s :: s in a.sessions && s in b.sessions ==> b.sessions[s].workflowType == a.sessions[s].workflowType
    ensures forall f :: f in a.frames && f in b.frames ==> a.frames[f].kind == b.frames[f].kind
  {
  }

  lemma OneMoreSession(a: Db, b: Db)
    requires OneMore(a, b)
    ensures |b.sessions| <= |a.sessions| + 1
  {
    SubsetSize(b.sessions.Keys, a.sessions.Keys + {a.nextSid});
  }

  lemma CreatedIsOneMore(cfg: Config, env: Env, a: Db, b: Db)
    requires WellFormedConfig(cfg) && Created(cfg, env, a, b)
    requires forall f :: f in b.frames && f != a.nextSid ==> f in a.frames && b.frames[f] == a.frames[f]
    ensures OneMore(a, b)
  {
  }

  lemma CallIsOneMore(cfg: Config, env: Env, db: Db, target: Name, p: Sid, stepId: StepId, now: int)
    requires WellFormedConfig(cfg) && target in cfg.workflows && Sound(db) && p in db.sessions
    ensures OneMore(db, CallChild(cfg, env, db, {}, target, p, stepId, now))
  {
    hide SpawnChild, FreshRow, Sound, Rests;
    SpawnFrames(cfg, env, db, target, p, CallFrame, None, None, now);
    LinkFrames(db, SpawnChild(cfg, env, db, {}, target, p, CallFrame, None, None, now), p, target, stepId, now);
    CallChildWrites(cfg, env, db, {}, target, p, stepId, now);
    CreatedTypes(cfg, env, db, CallChild(cfg, env, db, {}, target, p, stepId, now));
  }

  lemma CreatedTypes(cfg: Config, env: Env, a: Db, b: Db)
    requires WellFormedConfig(cfg) && Created(cfg, env, a, b)
    ensures forall s :: s in b.sessions && s != a.nextSid ==> s in a.sessions && b.sessions[s].workflowType == a.sessions[s].workflowType
  {
  }

  lemma SyncedRaised(cfg: Config, cap: int, a: Db, v: View, b: Db, stack: seq<ClientFrame>, types: seq<Name>, frame: ClientFrame, target: Name)
    requires Synced(cfg, cap, a, v, stack, types) && OneMore(a, b)
    requires RootOf(a, TopOf(stack).session) == stack[0].session && Good(b, Raised(a, v, TopOf(stack).session))
    requires Walk(CallGraphOf(cfg.workflows), types + [target]) && target in cfg.workflows
    requires frame.session == a.nextSid && frame.wf == cfg.workflows[target]
    requires a.nextSid in b.sessions && b.sessions[a.nextSid].workflowType == target
    requires a.nextSid in b.frames && b.frames[a.nextSid].kind == CallFrame
    ensures Synced(cfg, cap, b, Raised(a, v, TopOf(stack).session), stack + [frame], types + [target])
  {
    hide Represents, Linked, Issued, CallGraphOf, Walk, OneMore, SyncedAt, RootIn, At;
    var w, above, types' := Raised(a, v, TopOf(stack).session), stack + [frame], types + [target];
    OneMoreSession(a, b);
    OneMoreKept(a, v, b);
    NewestAt(cfg, a, b, w, above, types');
    forall i | 0 <= i < |stack| ensures SyncedAt(cfg, b, w, above, types', i) {
      RaisedAt(a, v, TopOf(stack).session, i);
      KeptAt(cfg, a, v, b, w, stack, types, above, types', i);
    }
  }

  lemma RaisedAt(a: Db, v: View, s: Sid, i: nat)
    requires RootOf(a, s) in v && i <= |v[RootOf(a, s)]|
    ensures At(Raised(a, v, s), RootOf(a, s), i) == At(v, RootOf(a, s), i)
  {
  }

  lemma NewestAt(cfg: Config, a: Db, b: Db, w: View, stack: seq<ClientFrame>, types: seq<Name>)
    requires |types| == |stack| > 1 && stack[0].session in w && |w[stack[0].session]| == |stack| - 1
    requires w[stack[0].session][|stack| - 2] == a.nextSid && TopOf(stack).session == a.nextSid
    requires types[|stack| - 1] in cfg.workflows && TopOf(stack).wf == cfg.workflows[types[|stack| - 1]]
    requires a.nextSid in b.sessions && b.sessions[a.nextSid].workflowType == types[|stack| - 1]
    requires a.nextSid in b.frames && b.frames[a.nextSid].kind == CallFrame
    ensures SyncedAt(cfg, b, w, stack, types, |stack| - 1)
  {
  }

  lemma EnterKeepsStep(cfg: Config, env: Env, cap: int, db: Db, v: View, stack: seq<ClientFrame>, types: seq<Name>,
                       stepId: StepId, target: Name, now: int) returns (w: View)
    requires WellFormedConfig(cfg) && InStep(cfg, cap, db, v, stack, types, stepId, Some(target))
    requires Acyclic(CallGraphOf(cfg.workflows))
    ensures var (b, reply) := EnterSubWorkflow(cfg, env, db, TopOf(stack).session, stepId, {}, now);
            && !Desynced(reply) && (reply.Entered? || reply.Error? || reply.Crash?)
            && (reply.Entered? ==>
                  && reply.workflowType == target && target in cfg.workflows && |stack| < |cfg.workflows|
                  && Answered(cfg, cap, b, w, stack + [ClientFrame(reply.session, cfg.workflows[target], -1, Some(stepId))],
                              types + [target], stepId, reply))
  {
    hide Synced, Good, EnterSubWorkflow, OneMore, Answered, BackwardRefs, TargetsExist, FieldRules, ForwardMcp,
         CallGraphOf, Acyclic;
    var s := TopOf(stack).session;
    w := v;
    SyncedGood(cfg, cap, db, v, stack, types);
    GoodIsSound(db, v);
    TopIsOnTop(cfg, cap, db, v, stack, types);
    EnterTells(cfg, env, db, v, s, stepId, target, now);
    var (b, reply) := EnterSubWorkflow(cfg, env, db, s, stepId, {}, now);
    if reply.Entered? {
      var wf := cfg.workflows[target];
      w := Raised(db, v, s);
      RoomToDescend(cfg, cap, db, v, stack, types, stepId, target);
      EnteredIsOneMore(cfg, env, db, s, stepId, target, now);
      EnteredPending(cfg, cap, db, v, stack, types, stepId, target, Event(cfg, env, now, Enter(s, stepId)), ClientFrame(reply.session, wf, -1, Some(stepId)));
      SyncedRaised(cfg, cap, db, v, b, stack, types, ClientFrame(reply.session, wf, -1, Some(stepId)), target);
      FirstStep(wf);
      PositionOfIdAt(wf, 0);
      EnteredAnswers(cfg, cap, b, w, stack + [ClientFrame(reply.session, wf, -1, Some(stepId))], types + [target], stepId, reply);
    }
  }

  /** ... also under a child entered from the top, which stands at a step. */
  lemma EnteredPending(cfg: Config, cap: int, db: Db, v: View, stack: seq<ClientFrame>, types: seq<Name>, step: StepId, target: Name,
                       e: Event, frame: ClientFrame)
    requires WellFormedConfig(cfg) && InStep(cfg, cap, db, v, stack, types, step, Some(target)) && e.cfg == cfg && e.call.Enter?
    ensures Pending(Apply(db, e).0, stack + [frame])
  {
    hide Good, Synced, ApplyEvicting, Sound, Still, BackwardRefs, TargetsExist, FieldRules, ForwardMcp;
    var b := Apply(db, e).0;
    SyncedGood(cfg, cap, db, v, stack, types);
    GoodIsSound(db, v);
    PendingKept(cfg, cap, db, v, stack, types, e);
    var s := TopOf(stack).session;
    if s in b.sessions {
      MovesOnlyFromAbove(db, e, {}, s);
      StillIsOpen(cfg, db.sessions[s], b.sessions[s]);
    }
    assert OpenBelow(b, s, frame.session);
    forall i | 0 < i < |stack + [frame]| ensures OpenBelow(b, (stack + [frame])[i - 1].session, (stack + [frame])[i].session) {
      assert i < |stack| ==> OpenBelow(b, stack[i - 1].session, stack[i].session);
    }
  }

  lemma EnteredAnswers(cfg: Config, cap: int, db: Db, v: View, stack: seq<ClientFrame>, types: seq<Name>, stepId: StepId, reply: Reply)
    requires Synced(cfg, cap, db, v, stack, types) && Pending(db, stack) && stack != [] && |types| == |stack| && reply.Entered?
    requires TopOf(stack).session == reply.session && reply.session in db.sessions && db.sessions[reply.session].currentStep == reply.step
    requires db.sessions[reply.session].workflowType in cfg.workflows
    requires TopOf(stack).wf == cfg.workflows[db.sessions[reply.session].workflowType] && FindStep(TopOf(stack).wf, reply.step) >= 0
    ensures Answered(cfg, cap, db, v, stack, types, stepId, reply)
  {
  }

  lemma EnteredIsOneMore(cfg: Config, env: Env, db: Db, p: Sid, stepId: StepId, target: Name, now: int)
    requires WellFormedConfig(cfg) && Sound(db) && p in db.sessions && StandsAt(cfg, db, p, stepId, Some(target))
    ensures var (b, reply) := EnterSubWorkflow(cfg, env, db, p, stepId, {}, now);
            reply.Entered? ==> OneMore(db, b)
  {
    hide CallChild, OneMore, UniqueIds, BackwardRefs, TargetsExist, FieldRules, ForwardMcp, TopFrame, ResolveRef,
         Sound;
    var (b, reply) := EnterSubWorkflow(cfg, env, db, p, stepId, {}, now);
    if reply.Entered? {
      CallIsOneMore(cfg, env, db, target, p, stepId, now);
    }
  }

  // --- Starting ---------------------------------------------------------------------------------------------

  lemma RootSynced(cfg: Config, cap: int, db: Db, v: View, b: Db, name: Name)
    requires |db.sessions| + |cfg.workflows| <= cap && OneMore(db, b) && Good(b, v[db.nextSid := []])
    requires name in cfg.workflows && db.nextSid in b.sessions && b.sessions[db.nextSid].workflowType == name
    ensures Synced(cfg, cap, b, v[db.nextSid := []], [ClientFrame(db.nextSid, cfg.workflows[name], -1, None)], [name])
  {
    hide Good, CallGraphOf, OneMore;
    OneMoreSession(db, b);
  }

  lemma StartIsOneMore(cfg: Config, env: Env, db: Db, name: Name, now: int)
    requires WellFormedConfig(cfg)
    ensures var b := StartWorkflow(cfg, env, db, name, {}, now).0; b == db || OneMore(db, b)
  {
    hide StartWorkflow, Created;
    StartMoves(cfg, env, db, name, {}, now);
    StartFrames(cfg, env, db, name, now);
    var b := StartWorkflow(cfg, env, db, name, {}, now).0;
    if b != db {
      CreatedIsOneMore(cfg, env, db, b);
    }
  }

  lemma StartKeepsStep(cfg: Config, env: Env, cap: int, db: Db, v: View, name: Name, now: int) returns (w: View)
    requires WellFormedConfig(cfg) && Good(db, v) && |db.sessions| + |cfg.workflows| <= cap
    ensures var (b, reply) := StartWorkflow(cfg, env, db, name, {}, now);
            && !Desynced(reply) && (reply.Started? || reply.Finished? || reply.Error? || reply.Crash?)
            && (reply.Finished? ==> reply.session in b.sessions && b.sessions[reply.session].currentStep == COMPLETE)
            && (reply.Started? ==>
                  && name in cfg.workflows
                  && var wf := cfg.workflows[name];
                     InStep(cfg, cap, b, w, [ClientFrame(reply.session, wf, -1, None)], [name], reply.step, CallTargetOf(wf, reply.step)))
  {
    hide StartWorkflow, Good, Synced, OneMore, UniqueIds, BackwardRefs, TargetsExist, FieldRules, ForwardMcp;
    var (b, reply) := StartWorkflow(cfg, env, db, name, {}, now);
    w := v[db.nextSid := []];
    StartTells(cfg, env, db, name, now);
    StartAddsRoot(cfg, env, db, v, name, now);
    StartIsOneMore(cfg, env, db, name, now);
    if reply.Started? {
      RootSynced(cfg, cap, db, v, b, name);
    }
  }

  // --- The loop -----------------------------------------------------------------------------------------------

  /** `_detect_call_target`: what the reply says, or else the client's own copy of the workflow. */
  function DetectCallTarget(envelope: Reply, wf: Workflow, stepId: StepId): Option<Name> {
    if envelope.Advanced? && envelope.callTarget.Some? then envelope.callTarget
    else if envelope.Resumed? && envelope.callTarget.Some? then envelope.callTarget
    else CallTargetOf(wf, stepId)
  }

  /** The step a reply makes the active one. */
  function ActiveStep(envelope: Reply): Option<StepId> {
    match envelope
    case Started(_, step) => Some(step)
    case Entered(_, _, step) => Some(step)
    case Advanced(_, step, _, _) => Some(step)
    case Resumed(_, _, step, _) => Some(step)
    case _ => None
  }

  /** The pops for a reply that reports a returned child. */
  method PopReturned(stack: seq<ClientFrame>, x: Sid) returns (below: seq<ClientFrame>)
    ensures below <= stack && (below != [] ==> TopOf(below).session == x)
    ensures forall i :: |below| <= i < |stack| ==> stack[i].session != x
  {
    below := stack;
    while below != [] && below[|below| - 1].session != x
      invariant below <= stack
      invariant forall i :: |below| <= i < |stack| ==> stack[i].session != x
      decreases |below|
    {
      below := below[..|below| - 1];
    }
  }

  // --- The calls the client makes ---------------------------------------------------------------------------

  /** The session on top of the root's stack stands at this step of its workflow. */
  ghost predicate TopAt(cfg: Config, db: Db, root: Sid, s: Sid, stepId: StepId) {
    && s in db.sessions && RootOf(db, s) == root && TopFrame(db, s) == None && db.sessions[s].currentStep == stepId
    && db.sessions[s].workflowType in cfg.workflows && FindStep(cfg.workflows[db.sessions[s].workflowType], stepId) >= 0
  }

  /** The step the session stands at, in the server's document. */
  ghost function StepAt(cfg: Config, db: Db, s: Sid, stepId: StepId): Step
    requires s in db.sessions && db.sessions[s].workflowType in cfg.workflows
    requires FindStep(cfg.workflows[db.sessions[s].workflowType], stepId) >= 0
  {
    var wf := cfg.workflows[db.sessions[s].workflowType];
    wf.steps[FindStep(wf, stepId)]
  }

  /** The call submits what the operator typed for the session on top, at its step: the response as
      the content, and the operator's branch if the step has branches, but none on a second try. */
  ghost predicate Submits(cfg: Config, db: Db, root: Sid, input: Input, previous: Reply, c: Call) {
    && c.Submit? && TopAt(cfg, db, root, c.s, c.stepId)
    && c.content == input.response && c.artifact == ""
    && var step := StepAt(cfg, db, c.s, c.stepId);
       && step.call.None?
       && c.branch == (if step.branches != [] && !previous.ValidationError? then input.branch else "")
  }

  /** The call enters the workflow that the step of the session on top calls. */
  ghost predicate Enters(cfg: Config, db: Db, root: Sid, c: Call) {
    c.Enter? && TopAt(cfg, db, root, c.s, c.stepId) && StepAt(cfg, db, c.s, c.stepId).call.Some?
  }

  /** A turn that submits at a step the client answers leaves, when it is accepted, exactly the typed
      response under that step, or hands a finished child over to its caller with the response stored. */
  lemma ResponseIsStored(cfg: Config, env: Env, db: Db, root: Sid, input: Input, previous: Reply, c: Call, now: int)
    requires WellFormedConfig(cfg) && Sound(db) && Submits(cfg, db, root, input, previous, c)
    requires StepAt(cfg, db, c.s, c.stepId).action.Llm?
    ensures var (b, reply) := Apply(db, Event(cfg, env, now, c));
            && ContentsStored(cfg, db, b, c.s, c.stepId, input.response, reply)
            && ((reply.Advanced? || reply.Finished?) && !reply.propagated ==>
                  c.s in b.sessions && c.stepId in b.sessions[c.s].stepData && b.sessions[c.s].stepData[c.stepId] == input.response)
  {
    hide SubmitStep, KeptBySubmission, HandedOver, Sound, RunsAgain, AsksBack, RootIn, TopFrame;
    AcceptedContentIsStored(cfg, env, db, c.s, c.stepId, c.content, c.branch, "", now);
  }

  lemma InStepTopAt(cfg: Config, cap: int, db: Db, v: View, stack: seq<ClientFrame>, types: seq<Name>, step: StepId, target: Option<Name>)
    requires InStep(cfg, cap, db, v, stack, types, step, target)
    ensures var s := TopOf(stack).session;
            TopAt(cfg, db, stack[0].session, s, step) && StepAt(cfg, db, s, step).call == target
            && TopOf(stack).wf == cfg.workflows[db.sessions[s].workflowType]
  {
    hide Good, CallGraphOf, Walk, ParentOf, TopFrame;
    TopIsOnTop(cfg, cap, db, v, stack, types);
    assert SyncedAt(cfg, db, v, stack, types, |stack| - 1);
  }

  /** One submission for the top session. */
  method SubmitTop(engine: Engine, stack: seq<ClientFrame>, stepId: StepId, content: string, branch: string, now: int,
                   ghost v: View, ghost types: seq<Name>) returns (envelope: Reply, ghost w: View)
    requires engine.Valid() && InStep(engine.cfg, engine.sessionCap, engine.store.Tables(), v, stack, types, stepId, None)
    modifies engine.store
    ensures engine.Valid() && !Desynced(envelope)
    ensures Answered(engine.cfg, engine.sessionCap, engine.store.Tables(), w, stack, types, stepId, envelope)
    ensures (engine.store.Tables(), envelope) ==
            SubmitStep(engine.cfg, engine.env, old(engine.store.Tables()), TopOf(stack).session, stepId, content, branch, "", now)
  {
    hide InStep, Answered, Sound, SubmitStep;
    InStepStack(engine.cfg, engine.sessionCap, engine.store.Tables(), v, stack, types, stepId, None);
    w := SubmitKeepsStep(engine.cfg, engine.env, engine.sessionCap, engine.store.Tables(), v, stack, types, stepId, content, branch, now);
    envelope := engine.Submit(TopOf(stack).session, stepId, content, branch, "", now);
  }

  lemma InStepStack(cfg: Config, cap: int, db: Db, v: View, stack: seq<ClientFrame>, types: seq<Name>, step: StepId, target: Option<Name>)
    requires InStep(cfg, cap, db, v, stack, types, step, target)
    ensures stack != [] && |types| == |stack| && |db.sessions| + |cfg.workflows| <= cap + |stack|
    ensures types[|stack| - 1] in cfg.workflows
    ensures TopOf(stack).wf == cfg.workflows[types[|stack| - 1]] && target == CallTargetOf(TopOf(stack).wf, step)
  {
    assert SyncedAt(cfg, db, v, stack, types, |stack| - 1);
  }

  lemma RefusedCreatesNothing(cfg: Config, env: Env, db: Db, p: Sid, stepId: StepId, target: Name, evicted: set<Sid>, now: int)
    requires WellFormedConfig(cfg) && StandsAt(cfg, db, p, stepId, Some(target)) && target !in cfg.workflows
    ensures EnterSubWorkflow(cfg, env, db, p, stepId, evicted, now).0.nextSid == db.nextSid
  {
    hide CallChild, UniqueIds, BackwardRefs, TargetsExist, FieldRules, ForwardMcp, TopFrame, ResolveRef;
  }

  /** Below the session cap a descent evicts nothing. */
  lemma NothingEvicted(cfg: Config, env: Env, cap: int, db: Db, v: View, stack: seq<ClientFrame>, types: seq<Name>,
                       stepId: StepId, target: Name, evicted: set<Sid>, now: int)
    requires WellFormedConfig(cfg) && InStep(cfg, cap, db, v, stack, types, stepId, Some(target)) && Acyclic(CallGraphOf(cfg.workflows))
    requires var b := EnterSubWorkflow(cfg, env, db, TopOf(stack).session, stepId, evicted, now).0;
             if b.nextSid == db.nextSid then evicted == {} else Victims(db, cap, evicted)
    ensures evicted == {}
  {
    hide EnterSubWorkflow, Synced, Acyclic, CallGraphOf, Victims, StandsAt;
    InStepStack(cfg, cap, db, v, stack, types, stepId, Some(target));
    if target in cfg.workflows {
      RoomToDescend(cfg, cap, db, v, stack, types, stepId, target);
      if Victims(db, cap, evicted) {
        NoEvictionBelowCap(db, cap, evicted);
      }
    } else {
      RefusedCreatesNothing(cfg, env, db, TopOf(stack).session, stepId, target, evicted, now);
    }
  }

  /** `_descend` */
  method Descend(engine: Engine, stack: seq<ClientFrame>, stepId: StepId, target: Name, now: int, ghost v: View, ghost types: seq<Name>)
      returns (envelope: Reply, above: seq<ClientFrame>, ghost w: View)
    requires engine.Valid() && InStep(engine.cfg, engine.sessionCap, engine.store.Tables(), v, stack, types, stepId, Some(target))
    requires Acyclic(CallGraphOf(engine.cfg.workflows))
    modifies engine.store
    ensures engine.Valid() && !Desynced(envelope)
    ensures (engine.store.Tables(), envelope) ==
            EnterSubWorkflow(engine.cfg, engine.env, old(engine.store.Tables()), TopOf(stack).session, stepId, {}, now)
    ensures envelope.Entered? || envelope.Error? || envelope.Crash?
    ensures envelope.Entered? ==>
              && |stack| < |engine.cfg.workflows| && |above| == |stack| + 1 && above[0] == stack[0]
              && Answered(engine.cfg, engine.sessionCap, engine.store.Tables(), w, above, types + [target], stepId, envelope)
    ensures !envelope.Entered? ==> above == stack
  {
    hide InStep, Answered, Sound, EnterSubWorkflow, Victims, Acyclic, CallGraphOf, WellFormedConfig;
    InStepStack(engine.cfg, engine.sessionCap, engine.store.Tables(), v, stack, types, stepId, Some(target));
    w := EnterKeepsStep(engine.cfg, engine.env, engine.sessionCap, engine.store.Tables(), v, stack, types, stepId, target, now);
    above := stack;
    ghost var db := engine.store.Tables();
    var evicted;
    envelope, evicted := engine.Enter(stack[|stack| - 1].session, stepId, now);
    NothingEvicted(engine.cfg, engine.env, engine.sessionCap, db, v, stack, types, stepId, target, evicted, now);
    if envelope.Entered? {
      above := stack + [ClientFrame(envelope.session, engine.cfg.workflows[envelope.workflowType], -1, Some(stepId))];
    }
  }

  /** The reply does not end the loop. */
  predicate GoesOn(envelope: Reply) {
    !(envelope.Error? || envelope.Crash? || envelope.Finished? || (envelope.ValidationError? && envelope.exhausted))
  }

  /** The loop head after the pops: the client's stack is the server's, and the step it will submit
      or enter is the one at which the top session stands. */
  ghost predicate Settled(cfg: Config, cap: int, db: Db, v: View, stack: seq<ClientFrame>, types: seq<Name>, stepId: StepId, envelope: Reply) {
    if envelope.ValidationError? then InStep(cfg, cap, db, v, stack, types, stepId, None)
    else
      ActiveStep(envelope).Some? && stack != []
      && InStep(cfg, cap, db, v, stack, types, ActiveStep(envelope).value,
                DetectCallTarget(envelope, TopOf(stack).wf, ActiveStep(envelope).value))
  }

  predicate ReportsReturn(envelope: Reply) {
    (envelope.Advanced? || envelope.Finished?) && envelope.propagated
  }

  lemma ReturnedFromTop(cfg: Config, cap: int, db: Db, v: View, stack: seq<ClientFrame>, types: seq<Name>, stepId: StepId, envelope: Reply)
    requires Answered(cfg, cap, db, v, stack, types, stepId, envelope) && ReportsReturn(envelope)
    ensures |stack| >= 2 && |types| == |stack|
    ensures TopOf(stack).session != envelope.session && stack[|stack| - 2].session == envelope.session
    ensures GoesOn(envelope) ==> Settled(cfg, cap, db, v, stack[..|stack| - 1], types[..|types| - 1], stepId, envelope)
    ensures envelope.Finished? ==> Done(cfg, cap, db, v, stack[..|stack| - 1], types[..|types| - 1])
                                   && TopOf(stack[..|stack| - 1]).session == envelope.session
  {
    hide Synced, StandsAt;
    if GoesOn(envelope) {
      InStepStack(cfg, cap, db, v, stack[..|stack| - 1], types[..|types| - 1], envelope.step, envelope.callTarget);
    }
  }

  lemma NothingReturned(cfg: Config, cap: int, db: Db, v: View, stack: seq<ClientFrame>, types: seq<Name>, stepId: StepId, envelope: Reply)
    requires Answered(cfg, cap, db, v, stack, types, stepId, envelope) && !ReportsReturn(envelope)
    ensures stack != []
    ensures GoesOn(envelope) ==> Settled(cfg, cap, db, v, stack, types, stepId, envelope)
    ensures envelope.Finished? ==> Done(cfg, cap, db, v, stack, types) && TopOf(stack).session == envelope.session
  {
    hide Synced, StandsAt;
    if envelope.Advanced? {
      InStepStack(cfg, cap, db, v, stack, types, envelope.step, envelope.callTarget);
    }
  }

  /** The loop of pops takes exactly the returned child off. */
  lemma OnePop(stack: seq<ClientFrame>, below: seq<ClientFrame>, x: Sid)
    requires |stack| >= 2 && TopOf(stack).session != x && stack[|stack| - 2].session == x
    requires below <= stack && (below != [] ==> TopOf(below).session == x)
    requires forall i :: |below| <= i < |stack| ==> stack[i].session != x
    ensures below == stack[..|stack| - 1]
  {
  }

  lemma PrevStepIsOwn(cfg: Config, cap: int, db: Db, v: View, stack: seq<ClientFrame>, types: seq<Name>, step: StepId,
                      target: Option<Name>, prev: int)
    requires InStep(cfg, cap, db, v, stack, types, step, target)
    ensures InStep(cfg, cap, db, v, stack[|stack| - 1 := TopOf(stack).(prevStep := prev)], types, step, target)
  {
    hide Good, CallGraphOf, Walk;
    var stack' := stack[|stack| - 1 := TopOf(stack).(prevStep := prev)];
    forall i | 0 <= i < |stack| ensures SyncedAt(cfg, db, v, stack', types, i) {
      assert SyncedAt(cfg, db, v, stack, types, i);
    }
  }

  /** The reply that starts a session with this client's root. */
  method StartRoot(engine: Engine, name: Name, now: int, ghost v: View) returns (envelope: Reply, ghost w: View)
    requires engine.Valid() && name in engine.cfg.workflows && Good(engine.store.Tables(), v)
    requires |engine.store.sessions| + |engine.cfg.workflows| <= engine.sessionCap
    modifies engine.store
    ensures engine.Valid() && !Desynced(envelope)
    ensures (engine.store.Tables(), envelope) == StartWorkflow(engine.cfg, engine.env, old(engine.store.Tables()), name, {}, now)
    ensures envelope.Started? || envelope.Finished? || envelope.Error? || envelope.Crash?
    ensures envelope.Finished? ==>
              envelope.session in engine.store.sessions && engine.store.sessions[envelope.session].currentStep == COMPLETE
    ensures envelope.Started? ==>
              Answered(engine.cfg, engine.sessionCap, engine.store.Tables(), w,
                       [ClientFrame(envelope.session, engine.cfg.workflows[name], -1, None)], [name], "", envelope)
  {
    hide Sound, StartWorkflow, Good, Victims;
    w := StartKeepsStep(engine.cfg, engine.env, engine.sessionCap, engine.store.Tables(), v, name, now);
    ghost var db := engine.store.Tables();
    assert |engine.cfg.workflows| > 0;
    var evicted;
    envelope, evicted := engine.Start(name, now);
    if evicted != {} {
      NoEvictionBelowCap(db, engine.sessionCap, evicted);
    }
  }

  /** How one turn of the loop ends: with the next reply, with a refused descent, or for lack of input. */
  datatype Turn = Went(envelope: Reply, stack: seq<ClientFrame>, stepId: StepId, consumed: bool) | TurnedAway(envelope: Reply) | EndOfInput

  /** The pops at the head of the loop. */
  method Ascend(stack: seq<ClientFrame>, envelope: Reply, ghost cfg: Config, ghost cap: int, ghost db: Db, ghost v: View,
                ghost types: seq<Name>, ghost stepId: StepId) returns (below: seq<ClientFrame>, ghost types': seq<Name>)
    requires Answered(cfg, cap, db, v, stack, types, stepId, envelope)
    ensures |below| == (if ReportsReturn(envelope) then |stack| - 1 else |stack|) && [] < below <= stack
    ensures envelope.Finished? ==> Done(cfg, cap, db, v, below, types') && TopOf(below).session == envelope.session
    ensures GoesOn(envelope) ==> Settled(cfg, cap, db, v, below, types', stepId, envelope)
  {
    hide Answered, Settled, Done;
    below, types' := stack, types;
    if (envelope.Advanced? || envelope.Finished?) && envelope.propagated {
      ReturnedFromTop(cfg, cap, db, v, stack, types, stepId, envelope);
      below := PopReturned(stack, envelope.session);
      OnePop(stack, below, envelope.session);
      types' := types[..|types| - 1];
    } else {
      NothingReturned(cfg, cap, db, v, stack, types, stepId, envelope);
    }
  }

  /** A turn after the pops: re-prompt after a validation error, descend at a call-step, or prompt
      and submit. */
  method Proceed(engine: Engine, stack: seq<ClientFrame>, stepId: StepId, envelope: Reply, input: Option<Input>, now: int,
                 ghost v: View, ghost types: seq<Name>)
      returns (turn: Turn, ghost w: View, ghost types': seq<Name>, ghost call: Call)
    requires engine.Valid() && GoesOn(envelope) && Acyclic(CallGraphOf(engine.cfg.workflows))
    requires Settled(engine.cfg, engine.sessionCap, engine.store.Tables(), v, stack, types, stepId, envelope)
    modifies engine.store
    ensures engine.Valid() && (turn.Went? || turn.TurnedAway? ==> !Desynced(turn.envelope))
    ensures turn.EndOfInput? ==> input.None?
    ensures turn.TurnedAway? ==> !GoesOn(turn.envelope) && !turn.envelope.Finished?
    ensures turn.Went? ==>
              && Answered(engine.cfg, engine.sessionCap, engine.store.Tables(), w, turn.stack, types', turn.stepId, turn.envelope)
              && stack != [] && turn.stack != [] && turn.stack[0].session == stack[0].session
              && (if turn.consumed then input.Some?
                  else |stack| < |engine.cfg.workflows| && |turn.stack| == |stack| + 1 && turn.envelope.Entered?)
    ensures turn.EndOfInput? ==> engine.store.Tables() == old(engine.store.Tables())
    ensures turn.Went? || turn.TurnedAway? ==>
              && stack != [] && call.Submit? == (turn.Went? && turn.consumed)
              && (engine.store.Tables(), turn.envelope) == Apply(old(engine.store.Tables()), Event(engine.cfg, engine.env, now, call))
              && (if call.Submit? then input.Some? && Submits(engine.cfg, old(engine.store.Tables()), stack[0].session, input.value, envelope, call)
                  else Enters(engine.cfg, old(engine.store.Tables()), stack[0].session, call))
  {
    hide Answered, InStep, Sound, SoundFrames, Desynced, Acyclic, CallGraphOf, DetectCallTarget, Position, FindStep, Done, WellFormedConfig;
    hide SubmitStep, EnterSubWorkflow, TopFrame;
    w, types', call := v, types, Delete(0);
    if envelope.ValidationError? {
      InStepStack(engine.cfg, engine.sessionCap, engine.store.Tables(), v, stack, types, stepId, None);
      InStepTopAt(engine.cfg, engine.sessionCap, engine.store.Tables(), v, stack, types, stepId, None);
      if input.None? {
        return EndOfInput, w, types', call;
      }
      var reply;
      reply, w := SubmitTop(engine, stack, stepId, input.value.response, "", now, v, types);
      return Went(reply, stack, stepId, true), w, types', Submit(TopOf(stack).session, stepId, input.value.response, "", "");
    }
    var active := ActiveStep(envelope).value;
    var top := stack[|stack| - 1];
    var target := DetectCallTarget(envelope, top.wf, active);
    PrevStepIsOwn(engine.cfg, engine.sessionCap, engine.store.Tables(), v, stack, types, active, target, Position(top.wf, active));
    var stack' := stack[|stack| - 1 := top.(prevStep := Position(top.wf, active))];
    InStepTopAt(engine.cfg, engine.sessionCap, engine.store.Tables(), v, stack', types, active, target);
    if target.Some? {
      var reply, above;
      reply, above, w := Descend(engine, stack', active, target.value, now, v, types);
      types' := types + [target.value];
      return if reply.Entered? then Went(reply, above, active, false) else TurnedAway(reply), w, types', Enter(top.session, active);
    }
    if input.None? {
      return EndOfInput, w, types', call;
    }
    var at := FindStep(top.wf, active);
    var branch := if at >= 0 && top.wf.steps[at].branches != [] then input.value.branch else "";
    var reply;
    reply, w := SubmitTop(engine, stack', active, input.value.response, branch, now, v, types);
    turn, call := Went(reply, stack', active, true), Submit(top.session, active, input.value.response, branch, "");
  }

  /** Whose completion ended the run: the session on top of the client's stack is complete, the
      root is only when the stack is the root alone, and otherwise the completed session is stranded
      above its caller. */
  lemma DoneMeans(cfg: Config, cap: int, db: Db, v: View, stack: seq<ClientFrame>, types: seq<Name>)
    requires Done(cfg, cap, db, v, stack, types)
    ensures stack[0].session in db.sessions && TopOf(stack).session in db.sessions
    ensures db.sessions[TopOf(stack).session].currentStep == COMPLETE
    ensures db.sessions[stack[0].session].currentStep == COMPLETE <==> |stack| == 1
    ensures |stack| > 1 ==> Stranded(db, TopOf(stack).session, stack[|stack| - 2].session)
  {
    hide Good, CallGraphOf, Walk, ParentOf, TopFrame;
    TopIsOnTop(cfg, cap, db, v, stack, types);
    assert SyncedAt(cfg, db, v, stack, types, 0);
    if |stack| > 1 {
      assert SyncedAt(cfg, db, v, stack, types, 1) && SyncedAt(cfg, db, v, stack, types, |stack| - 2);
      assert OpenBelow(db, stack[1 - 1].session, stack[1].session);
    }
  }

  // --- The whole run as calls ---------------------------------------------------------------------------------

  ghost predicate Playable(events: seq<Event>) {
    forall e :: e in events ==> WellFormedConfig(e.cfg)
  }

  /** Each reply is the answer to its call on the tables the earlier calls left, and b is what all leave. */
  ghost predicate Replays(db: Db, events: seq<Event>, received: seq<Reply>, b: Db) {
    && Playable(events) && |received| == |events| && b == After(db, events)
    && forall k :: 0 <= k < |events| ==> Answers(db, events, k, received[k])
  }

  ghost predicate Answers(db: Db, events: seq<Event>, k: nat, reply: Reply)
    requires Playable(events) && k < |events|
  {
    reply == Apply(After(db, events[..k]), events[k]).1
  }

  /** How many of the calls submit something the operator typed. */
  ghost function Typed(events: seq<Event>): nat {
    if events == [] then 0 else Typed(events[..|events| - 1]) + (if events[|events| - 1].call.Submit? then 1 else 0)
  }

  /** Call k, after the first, submits the next input that was typed for the session on top of the
      root's stack at the step it stands at, or enters the workflow that step calls. */
  ghost predicate TurnTaken(cfg: Config, db: Db, root: Sid, inputs: seq<Input>, events: seq<Event>, received: seq<Reply>, k: nat)
    requires Playable(events) && |received| == |events| && 0 < k < |events|
  {
    var at, n, c := After(db, events[..k]), Typed(events[..k]), events[k].call;
    if c.Submit? then n < |inputs| && Submits(cfg, at, root, inputs[n], received[k - 1], c) else Enters(cfg, at, root, c)
  }

  ghost predicate TurnsTaken(cfg: Config, db: Db, root: Sid, inputs: seq<Input>, events: seq<Event>, received: seq<Reply>) {
    Playable(events) && |received| == |events| && forall k :: 0 < k < |events| ==> TurnTaken(cfg, db, root, inputs, events, received, k)
  }

  /** The calls of a run: the start of the workflow, then one for every turn, each on the tables its
      predecessors left, at its own clock reading. */
  ghost predicate Traced(cfg: Config, env: Env, name: Name, clock: nat -> int, inputs: seq<Input>, db: Db, events: seq<Event>,
                         received: seq<Reply>, b: Db)
  {
    && Replays(db, events, received, b) && events != [] && events[0].call == Start(name)
    && (forall k :: 0 <= k < |events| ==> events[k].cfg == cfg && events[k].env == env && events[k].now == clock(k))
    && (|events| > 1 ==> received[0].Started? && TurnsTaken(cfg, db, received[0].session, inputs, events, received))
    && Typed(events) <= |inputs|
  }

  lemma {:induction false} AfterSnoc(db: Db, events: seq<Event>, e: Event)
    requires Playable(events) && WellFormedConfig(e.cfg)
    ensures After(db, events + [e]) == Apply(After(db, events), e).0
    decreases |events|
  {
    hide Apply, WellFormedConfig;
    if events == [] {
      assert After(Apply(db, e).0, [e][1..]) == Apply(db, e).0;
    } else {
      AfterSnoc(Apply(db, events[0]).0, events[1..], e);
      assert (events + [e])[1..] == events[1..] + [e];
    }
  }

  lemma ReplaysSnoc(db: Db, events: seq<Event>, received: seq<Reply>, b: Db, e: Event)
    requires Replays(db, events, received, b) && WellFormedConfig(e.cfg)
    ensures Replays(db, events + [e], received + [Apply(b, e).1], Apply(b, e).0)
  {
    hide Apply, After, WellFormedConfig;
    AfterSnoc(db, events, e);
    var events' := events + [e];
    forall k | 0 <= k < |events'| ensures Answers(db, events', k, (received + [Apply(b, e).1])[k]) {
      assert events'[..k] == events[..k];
      if k < |events| {
        assert Answers(db, events, k, received[k]);
      } else {
        assert events[..k] == events;
      }
    }
  }

  lemma TurnsSnoc(cfg: Config, db: Db, root: Sid, inputs: seq<Input>, events: seq<Event>, received: seq<Reply>, e: Event, reply: Reply)
    requires TurnsTaken(cfg, db, root, inputs, events, received) && WellFormedConfig(e.cfg) && events != []
    requires if e.call.Submit? then Typed(events) < |inputs| && Submits(cfg, After(db, events), root, inputs[Typed(events)], received[|events| - 1], e.call)
             else Enters(cfg, After(db, events), root, e.call)
    ensures TurnsTaken(cfg, db, root, inputs, events + [e], received + [reply])
    ensures Typed(events + [e]) == Typed(events) + (if e.call.Submit? then 1 else 0)
  {
    hide Apply, After, WellFormedConfig, Submits, Enters;
    var events', received' := events + [e], received + [reply];
    assert events'[..|events|] == events;
    forall k | 0 < k < |events'| ensures TurnTaken(cfg, db, root, inputs, events', received', k) {
      if k < |events| {
        assert events'[..k] == events[..k];
        assert TurnTaken(cfg, db, root, inputs, events, received, k);
      }
    }
  }

  /** The start of the workflow as the first call. */
  lemma FirstCall(cfg: Config, env: Env, name: Name, clock: nat -> int, inputs: seq<Input>, db: Db, reply: Reply, b: Db) returns (events: seq<Event>)
    requires WellFormedConfig(cfg) && (b, reply) == StartWorkflow(cfg, env, db, name, {}, clock(0))
    ensures |events| == 1 && Typed(events) == 0 && Traced(cfg, env, name, clock, inputs, db, events, [reply], b)
  {
    hide StartWorkflow, WellFormedConfig;
    events := [Event(cfg, env, clock(0), Start(name))];
    AfterSnoc(db, [], events[0]);
    assert [] + events == events && events[..0] == [];
  }

  /** One more call. */
  lemma NextCall(cfg: Config, env: Env, name: Name, clock: nat -> int, inputs: seq<Input>, db: Db, events: seq<Event>, received: seq<Reply>,
                 before: Db, call: Call)
    requires WellFormedConfig(cfg) && Traced(cfg, env, name, clock, inputs, db, events, received, before)
    requires |received| > 0 && received[0].Started?
    requires if call.Submit? then Typed(events) < |inputs|
                                  && Submits(cfg, before, received[0].session, inputs[Typed(events)], received[|received| - 1], call)
             else Enters(cfg, before, received[0].session, call)
    ensures var e := Event(cfg, env, clock(|received|), call);
            var (b, reply) := Apply(before, e);
            && Traced(cfg, env, name, clock, inputs, db, events + [e], received + [reply], b)
            && Typed(events + [e]) == Typed(events) + (if call.Submit? then 1 else 0)
  {
    hide Apply, WellFormedConfig, Submits, Enters, TurnTaken, Typed, After, Answers;
    var e := Event(cfg, env, clock(|received|), call);
    ReplaysSnoc(db, events, received, before, e);
    TurnsSnoc(cfg, db, received[0].session, inputs, events, received, e, Apply(before, e).1);
  }

  /** What the completion that ended the run was: of the session on top of what the client is left with,
      which the last reply names; the root's if and only if that is the root alone, and otherwise
      that session is stranded above its caller. */
  ghost predicate Completes(db: Db, received: seq<Reply>, left: seq<ClientFrame>)
    requires left != []
  {
    && received != [] && received[|received| - 1].Finished? && (received[0].Started? || |received| == 1)
    && var (top, root) := (TopOf(left).session, left[0].session);
       && top == received[|received| - 1].session && root == received[0].session
       && top in db.sessions && root in db.sessions && db.sessions[top].currentStep == COMPLETE
       && (db.sessions[root].currentStep == COMPLETE <==> |left| == 1)
       && (|left| > 1 ==> Stranded(db, top, left[|left| - 2].session))
  }

  lemma DoneCompletes(cfg: Config, cap: int, db: Db, v: View, stack: seq<ClientFrame>, types: seq<Name>, received: seq<Reply>)
    requires Done(cfg, cap, db, v, stack, types) && received != [] && received[0].Started? && received[|received| - 1].Finished?
    requires stack[0].session == received[0].session && TopOf(stack).session == received[|received| - 1].session
    ensures Completes(db, received, stack)
  {
    hide Synced, Pending, Stranded;
    DoneMeans(cfg, cap, db, v, stack, types);
  }

  lemma StartCompletes(db: Db, reply: Reply, frame: ClientFrame)
    requires reply.Finished? && frame.session == reply.session
    requires reply.session in db.sessions && db.sessions[reply.session].currentStep == COMPLETE
    ensures Completes(db, [reply], [frame])
  {
  }

  /** `main`: on the workflows of a loaded application, whose call graph has no cycle, with no
      other client and room under the session cap for one chain of calls, the loop ends for every
      input, and no reply it ever receives is one of the refusals of a client out of step. Exit 0
      means that the session the last reply names is complete; the root is if and only if the
      client is left with a stack of one, and otherwise that session is stranded. The calls are the
      start of the workflow and then one for every turn: the k-th submission carries the k-th input,
      for the session on top at the step it stands at, and no input is passed over. */
  method Run(engine: Engine, name: Name, inputs: seq<Input>, clock: nat -> int, ghost v0: View)
      returns (exit: Exit, received: seq<Reply>, ghost left: seq<ClientFrame>, ghost events: seq<Event>)
    requires engine.Valid() && name in engine.cfg.workflows && Good(engine.store.Tables(), v0)
    requires Acyclic(CallGraphOf(engine.cfg.workflows))
    requires |engine.store.sessions| + |engine.cfg.workflows| <= engine.sessionCap
    modifies engine.store
    ensures forall e :: e in received ==> !Desynced(e)
    ensures received != [] && (exit == Completed <==> received[|received| - 1].Finished?)
    ensures Traced(engine.cfg, engine.env, name, clock, inputs, old(engine.store.Tables()), events, received, engine.store.Tables())
    ensures exit == Aborted ==> Typed(events) == |inputs| < |received|
    ensures exit == Completed ==> left != [] && Completes(engine.store.Tables(), received, left)
  {
    hide Answered, Settled, Done, Stranded, InStep, Sound, SoundFrames, DetectCallTarget, ActiveStep, Desynced,
         Acyclic, CallGraphOf, Good, WellFormedConfig, Traced, Apply, Submits, Enters, Typed, StartWorkflow, Completes;
    ghost var v := v0;
    ghost var db := engine.store.Tables();
    var envelope;
    envelope, v := StartRoot(engine, name, clock(0), v);
    received := [envelope];
    events := FirstCall(engine.cfg, engine.env, name, clock, inputs, db, envelope, engine.store.Tables());
    if !envelope.Started? {
      if envelope.Finished? {
        left := [ClientFrame(envelope.session, engine.cfg.workflows[name], -1, None)];
        StartCompletes(engine.store.Tables(), envelope, left[0]);
        return Completed, received, left, events;
      }
      return Failed, received, [], events;
    }
    var stack := [ClientFrame(envelope.session, engine.cfg.workflows[name], -1, None)];
    ghost var types := [name];
    var stepId, pos := "", 0;
    while true
      invariant engine.Valid() && 0 <= pos <= |inputs| && pos == Typed(events) < |received|
      invariant |received| == |events| > 0 && received[0].Started? && stack != [] && stack[0].session == received[0].session
      invariant received[|received| - 1] == envelope && forall e :: e in received ==> !Desynced(e)
      invariant Traced(engine.cfg, engine.env, name, clock, inputs, db, events, received, engine.store.Tables())
      invariant Answered(engine.cfg, engine.sessionCap, engine.store.Tables(), v, stack, types, stepId, envelope)
      decreases |inputs| - pos, |engine.cfg.workflows| - |stack| + (if ReportsReturn(envelope) then 1 else 0)
    {
      stack, types := Ascend(stack, envelope, engine.cfg, engine.sessionCap, engine.store.Tables(), v, types, stepId);
      if envelope.Finished? {
        DoneCompletes(engine.cfg, engine.sessionCap, engine.store.Tables(), v, stack, types, received);
        return Completed, received, stack, events;
      }
      if !GoesOn(envelope) {
        return Failed, received, stack, events;
      }
      var input := if pos < |inputs| then Some(inputs[pos]) else None;
      var turn;
      ghost var call;
      ghost var before := engine.store.Tables();
      turn, v, types, call := Proceed(engine, stack, stepId, envelope, input, clock(|received|), v, types);
      if turn.EndOfInput? {
        return Aborted, received, stack, events;
      }
      NextCall(engine.cfg, engine.env, name, clock, inputs, db, events, received, before, call);
      events := events + [Event(engine.cfg, engine.env, clock(|received|), call)];
      envelope := turn.envelope;
      received := received + [envelope];
      if turn.TurnedAway? {
        return Failed, received, stack, events;
      }
      stack, stepId := turn.stack, turn.stepId;
      pos := if turn.consumed then pos + 1 else pos;
    }
  }
}
