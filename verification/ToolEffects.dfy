/** What every tool call comes to, read off the tables: which guard refuses it first, and otherwise
    which rows it writes and what it writes into them. */
module ToolEffects {
  import opened Options
  import opened Workflows
  import opened References
  import opened Tables
  import opened ToolSpecs
  import opened StackSafety
  import opened Soundness
  import opened SessionMoves
  import opened Handovers
  import opened Submissions

  // --- Guards in their order ------------------------------------------------------------------------

  datatype Guard = Guard(fails: bool, code: Code)

  /** The guard that refuses: the first that fails. */
  ghost predicate FailsFirst(guards: seq<Guard>, k: int) {
    0 <= k < |guards| && guards[k].fails && forall j :: 0 <= j < k ==> !guards[j].fails
  }

  ghost predicate AllPass(guards: seq<Guard>) {
    forall j :: 0 <= j < |guards| ==> !guards[j].fails
  }

  lemma {:induction false} SomeFailsFirst(guards: seq<Guard>) returns (k: int)
    ensures FailsFirst(guards, k) || AllPass(guards)
  {
    if guards == [] {
      k := 0;
    } else if guards[0].fails {
      k := 0;
    } else {
      k := SomeFailsFirst(guards[1..]);
      k := k + 1;
      assert forall j :: 0 < j < |guards| ==> guards[j] == guards[1..][j - 1];
    }
  }

  ghost predicate Known(cfg: Config, db: Db, s: Sid) {
    s in db.sessions && db.sessions[s].workflowType in cfg.workflows
  }

  ghost predicate OutOfDate(cfg: Config, row: Session) {
    row.workflowType in cfg.fingerprints && cfg.fingerprints[row.workflowType] != row.fingerprint
  }

  /** What every tool that names a session checks first. */
  ghost function SessionGuards(cfg: Config, db: Db, s: Sid): seq<Guard> {
    [Guard(s !in db.sessions, SessionNotFound),
     Guard(s in db.sessions && db.sessions[s].currentStep == "__workflow_changed__", WorkflowChanged),
     Guard(s in db.sessions && !Known(cfg, db, s), WorkflowNotLoaded),
     Guard(Known(cfg, db, s) && OutOfDate(cfg, db.sessions[s]), WorkflowChanged)]
  }

  lemma SessionGuardsMean(cfg: Config, db: Db, s: Sid, now: int)
    ensures match Resolve(cfg, db, s, now)
            case Refused(_, code) => exists k :: FailsFirst(SessionGuards(cfg, db, s), k) && SessionGuards(cfg, db, s)[k].code == code
            case Ready(row, wf) => AllPass(SessionGuards(cfg, db, s)) && Known(cfg, db, s) && row == db.sessions[s] && wf == cfg.workflows[row.workflowType]
  {
    var g := SessionGuards(cfg, db, s);
    var k := SomeFailsFirst(g);
    if FailsFirst(g, k) {
      assert k == 0 || k == 1 || k == 2 || k == 3;
      assert (k > 0 ==> !g[0].fails) && (k > 1 ==> !g[1].fails) && (k > 2 ==> !g[2].fails);
    } else {
      assert !g[0].fails && !g[1].fails && !g[2].fails && !g[3].fails;
    }
  }

  lemma ResolveWrites(cfg: Config, db: Db, s: Sid, now: int)
    ensures var a := Resolve(cfg, db, s, now); a.Refused? ==> Untouched(cfg, db, a.db, s, now)
  {
    assert |COMPLETE| != |WORKFLOW_CHANGED|;
  }

  /** The refused call left the tables alone, but for the mark on an out-of-date session. */
  ghost predicate Untouched(cfg: Config, a: Db, b: Db, s: Sid, now: int) {
    if Known(cfg, a, s) && OutOfDate(cfg, a.sessions[s]) && a.sessions[s].currentStep != "__workflow_changed__"
    then b == a || b == a.(sessions := a.sessions[s := a.sessions[s].(currentStep := "__workflow_changed__", updatedAt := now)])
    else b == a
  }

  /** The reply is the code of the guard that refuses. */
  ghost predicate Refuses(guards: seq<Guard>, reply: Reply) {
    exists k :: FailsFirst(guards, k) && reply == Error(guards[k].code)
  }

  lemma RefusesLater(before: seq<Guard>, guards: seq<Guard>, reply: Reply)
    requires AllPass(before) && Refuses(guards, reply)
    ensures Refuses(before + guards, reply)
  {
    var k :| FailsFirst(guards, k) && reply == Error(guards[k].code);
    var all := before + guards;
    assert all[|before| + k] == guards[k];
    assert forall j :: |before| <= j < |before| + k ==> all[j] == guards[j - |before|];
    assert FailsFirst(all, |before| + k);
  }

  lemma RefusesFirst(guards: seq<Guard>, after: seq<Guard>, reply: Reply)
    requires Refuses(guards, reply)
    ensures Refuses(guards + after, reply)
  {
    var k :| FailsFirst(guards, k) && reply == Error(guards[k].code);
    var all := guards + after;
    assert forall j :: 0 <= j <= k ==> all[j] == guards[j];
    assert FailsFirst(all, k);
  }

  lemma AllPassBoth(a: seq<Guard>, b: seq<Guard>)
    ensures AllPass(a + b) <==> AllPass(a) && AllPass(b)
  {
    if AllPass(a + b) {
      forall j | 0 <= j < |b| ensures !b[j].fails {
        assert (a + b)[|a| + j] == b[j];
      }
      forall j | 0 <= j < |a| ensures !a[j].fails {
        assert (a + b)[j] == a[j];
      }
    }
  }

  /** A guard that refuses leaves none to pass. */
  lemma RefusesIsNotPass(guards: seq<Guard>, reply: Reply)
    requires Refuses(guards, reply)
    ensures !AllPass(guards)
  {
  }

  lemma RefusedGuards(cfg: Config, db: Db, s: Sid, now: int)
    ensures var a := Resolve(cfg, db, s, now);
            a.Refused? ==> Refuses(SessionGuards(cfg, db, s), Error(a.code)) && !AllPass(SessionGuards(cfg, db, s))
  {
    hide Resolve, SessionGuards;
    SessionGuardsMean(cfg, db, s, now);
    if Resolve(cfg, db, s, now).Refused? {
      RefusesIsNotPass(SessionGuards(cfg, db, s), Error(Resolve(cfg, db, s, now).code));
    }
  }

  /** The guards of a tool: its arguments, the session, then its own. */
  ghost function GuardsOf(empty: bool, cfg: Config, db: Db, s: Sid, own: seq<Guard>): seq<Guard> {
    [Guard(empty, InvalidArgument)] + (SessionGuards(cfg, db, s) + own)
  }

  /** Where the guards of a tool first refuse. */
  lemma GuardsRefuse(empty: bool, cfg: Config, db: Db, s: Sid, own: seq<Guard>, now: int, reply: Reply)
    requires empty ==> reply == Error(InvalidArgument)
    requires !empty && Resolve(cfg, db, s, now).Refused? ==> reply == Error(Resolve(cfg, db, s, now).code)
    requires !empty && Resolve(cfg, db, s, now).Ready? ==> Refuses(own, reply)
    ensures Refuses(GuardsOf(empty, cfg, db, s, own), reply)
    ensures !AllPass(GuardsOf(empty, cfg, db, s, own))
  {
    hide Resolve, SessionGuards;
    var first := [Guard(empty, InvalidArgument)];
    SessionGuardsMean(cfg, db, s, now);
    if empty {
      assert FailsFirst(first, 0);
      RefusesFirst(first, SessionGuards(cfg, db, s) + own, reply);
    } else {
      if Resolve(cfg, db, s, now).Refused? {
        RefusesFirst(SessionGuards(cfg, db, s), own, reply);
      } else {
        RefusesLater(SessionGuards(cfg, db, s), own, reply);
      }
      RefusesLater(first, SessionGuards(cfg, db, s) + own, reply);
    }
    RefusesIsNotPass(GuardsOf(empty, cfg, db, s, own), reply);
  }

  lemma GuardsPass(empty: bool, cfg: Config, db: Db, s: Sid, own: seq<Guard>, now: int)
    ensures AllPass(GuardsOf(empty, cfg, db, s, own)) <==> !empty && Resolve(cfg, db, s, now).Ready? && AllPass(own)
  {
    hide Resolve, SessionGuards;
    SessionGuardsMean(cfg, db, s, now);
    AllPassBoth(SessionGuards(cfg, db, s), own);
    AllPassBoth([Guard(empty, InvalidArgument)], SessionGuards(cfg, db, s) + own);
    assert AllPass([Guard(empty, InvalidArgument)]) <==> !empty by {
      assert [Guard(empty, InvalidArgument)][0].fails == empty;
    }
  }

  ghost predicate FrameAbove(db: Db, s: Sid) {
    exists f :: f in db.frames && db.frames[f].root == RootOf(db, s) && db.frames[f].depth == DepthOf(db, s) + 1
  }

  lemma FrameAboveIsTop(db: Db, s: Sid)
    ensures FrameAbove(db, s) <==> TopFrame(db, s).Some?
  {
    if FrameAbove(db, s) {
      var f :| f in db.frames && db.frames[f].root == RootOf(db, s) && db.frames[f].depth == DepthOf(db, s) + 1;
      assert IsTopFrame(db, s, f);
    }
  }

  // --- submit_step -------------------------------------------------------------------------------------

  ghost function SubmitGuards(env: Env, db: Db, s: Sid, row: Session, wf: Workflow, stepId: StepId, content: string): seq<Guard> {
    var i := FindStep(wf, stepId);
    [Guard(row.escalation.Some?, SessionEscalated),
     Guard(row.currentStep == "__complete__", WorkflowComplete),
     Guard(row.currentStep != stepId, OutOfOrder),
     Guard(env.bytes(content) > 262144, Oversize),
     Guard(FrameAbove(db, s), SubWorkflowPending),
     Guard(i < 0, InvalidArgument),
     Guard(i >= 0 && wf.steps[i].call.Some?, CallStepNeedsEnter)]
  }

  lemma SubmitGuardsMean(env: Env, db: Db, s: Sid, row: Session, wf: Workflow, stepId: StepId, content: string)
    ensures var g := SubmitGuards(env, db, s, row, wf, stepId, content);
            match SubmitRefusal(env, db, s, row, wf, stepId, content)
            case Some(code) => Refuses(g, Error(code)) && !AllPass(g)
            case None => AllPass(g)
  {
    hide TopFrame, FrameAbove;
    var g := SubmitGuards(env, db, s, row, wf, stepId, content);
    FrameAboveIsTop(db, s);
    var k := SomeFailsFirst(g);
    if FailsFirst(g, k) {
      assert k == 0 || k == 1 || k == 2 || k == 3 || k == 4 || k == 5 || k == 6;
      assert (k > 0 ==> !g[0].fails) && (k > 1 ==> !g[1].fails) && (k > 2 ==> !g[2].fails) && (k > 3 ==> !g[3].fails)
             && (k > 4 ==> !g[4].fails) && (k > 5 ==> !g[5].fails);
    } else {
      assert !g[0].fails && !g[1].fails && !g[2].fails && !g[3].fails && !g[4].fails && !g[5].fails && !g[6].fails;
    }
  }

  ghost function AllSubmitGuards(cfg: Config, env: Env, db: Db, s: Sid, stepId: StepId, content: string): seq<Guard> {
    GuardsOf(stepId == "", cfg, db, s,
             if Known(cfg, db, s) then SubmitGuards(env, db, s, db.sessions[s], cfg.workflows[db.sessions[s].workflowType], stepId, content) else [])
  }

  /** A submission is refused by the first guard that fails and then writes at most the mark. Once
      all pass it is accepted exactly when its content passes the checks of its step. */
  lemma SubmitRefuses(cfg: Config, env: Env, db: Db, s: Sid, stepId: StepId, content: string, branch: string, artifact: string, now: int)
    requires WellFormedConfig(cfg)
    ensures var (b, reply) := SubmitStep(cfg, env, db, s, stepId, content, branch, artifact, now);
            var guards := AllSubmitGuards(cfg, env, db, s, stepId, content);
            if AllPass(guards) then
              && Known(cfg, db, s) && db.sessions[s].currentStep == stepId
              && var wf := cfg.workflows[db.sessions[s].workflowType];
                 var i := FindStep(wf, stepId);
                 i >= 0 && (Accepted(cfg, env, db, s, stepId, content, artifact) <==> Accepts(env, wf.steps[i], content, artifact))
            else Refuses(guards, reply) && Untouched(cfg, db, b, s, now) && !Accepted(cfg, env, db, s, stepId, content, artifact)
  {
    hide SubmitArtifact, SubmitContent, Refuses, SubmitGuards, GuardsOf, AllPass, Untouched, TopFrame, Accepts;
    hide UniqueIds, BackwardRefs, TargetsExist, FieldRules, ForwardMcp;
    var (b, reply) := SubmitStep(cfg, env, db, s, stepId, content, branch, artifact, now);
    SessionGuardsMean(cfg, db, s, now);
    ResolveWrites(cfg, db, s, now);
    NothingTouched(cfg, db, s, now);
    var own := if Known(cfg, db, s) then SubmitGuards(env, db, s, db.sessions[s], cfg.workflows[db.sessions[s].workflowType], stepId, content) else [];
    if Known(cfg, db, s) {
      SubmitGuardsMean(env, db, s, db.sessions[s], cfg.workflows[db.sessions[s].workflowType], stepId, content);
      StepsAreNotComplete(cfg.workflows[db.sessions[s].workflowType], stepId);
    }
    GuardsPass(stepId == "", cfg, db, s, own, now);
    if !AllPass(GuardsOf(stepId == "", cfg, db, s, own)) {
      GuardsRefuse(stepId == "", cfg, db, s, own, now, reply);
    }
  }

  lemma StepsAreNotComplete(wf: Workflow, id: StepId)
    requires UniqueIds(wf)
    ensures FindStep(wf, id) >= 0 ==> id != COMPLETE
  {
  }

  lemma NothingTouched(cfg: Config, db: Db, s: Sid, now: int)
    ensures Untouched(cfg, db, db, s, now)
  {
  }

  /** Every guard passed, the content did not pass the schema of its step: the try is counted, and
      nothing else of the row changes. From the last allowed try on the caller is told that the
      tries are exhausted, or, when the session is framed, the one below is escalated. */
  lemma FailedTry(cfg: Config, env: Env, db: Db, s: Sid, stepId: StepId, content: string, branch: string, artifact: string, now: int)
    requires WellFormedConfig(cfg) && Sound(db) && AllPass(AllSubmitGuards(cfg, env, db, s, stepId, content))
    requires Known(cfg, db, s)
    requires var wf := cfg.workflows[db.sessions[s].workflowType];
             var i := FindStep(wf, stepId);
             i >= 0 && wf.steps[i].artifacts == [] && wf.steps[i].outputSchema.Some? && !env.conforms(wf.steps[i].outputSchema.value, content)
    ensures var (b, reply) := SubmitStep(cfg, env, db, s, stepId, content, branch, artifact, now);
            var row, wf := db.sessions[s], cfg.workflows[db.sessions[s].workflowType];
            var tries := (if stepId in row.retries then row.retries[stepId] else 0) + 1;
            var last, p := tries >= wf.steps[FindStep(wf, stepId)].maxRetries, ParentOf(db, s);
            && b.frames == db.frames && b.sessions.Keys == db.sessions.Keys
            && b.sessions[s] == row.(retries := row.retries[stepId := tries], updatedAt := now)
            && (forall o :: o in db.sessions && o != s && !(last && p == Some(o)) ==> b.sessions[o] == db.sessions[o])
            && (if !last || p.None? then reply == ValidationError(last)
                else if p.value !in db.sessions then reply == Error(SessionNotFound)
                else reply == Error(SessionEscalated)
                     && b.sessions[p.value] == db.sessions[p.value].(escalation := Some("called_workflow_failed"), updatedAt := now))
  {
    hide SubmitStep, AllPass, GuardsOf, ParentOf, WellFormedWorkflow;
    TryFails(cfg, env, db, s, stepId, content, branch, artifact, now);
    var retried := IncRetry(db, s, stepId, now);
    IncRetrySameShape(db, s, stepId, now);
    SameParentAfter(db, retried, s);
    NeighboursUnique(db, s);
  }

  lemma TryFails(cfg: Config, env: Env, db: Db, s: Sid, stepId: StepId, content: string, branch: string, artifact: string, now: int)
    requires WellFormedConfig(cfg) && AllPass(AllSubmitGuards(cfg, env, db, s, stepId, content)) && Known(cfg, db, s)
    requires var wf := cfg.workflows[db.sessions[s].workflowType];
             var i := FindStep(wf, stepId);
             i >= 0 && wf.steps[i].artifacts == [] && wf.steps[i].outputSchema.Some? && !env.conforms(wf.steps[i].outputSchema.value, content)
    ensures var row, wf := db.sessions[s], cfg.workflows[db.sessions[s].workflowType];
            var retried := IncRetry(db, s, stepId, now);
            SubmitStep(cfg, env, db, s, stepId, content, branch, artifact, now) ==
            if CountOf(row.retries, stepId) + 1 >= wf.steps[FindStep(wf, stepId)].maxRetries then FailUpwards(retried, s, ValidationError(true), now)
            else (retried, ValidationError(false))
  {
    hide Commit, AllPass, TopFrame, GuardsOf, IncRetry, FailUpwards, UniqueIds, BackwardRefs, TargetsExist, FieldRules, ForwardMcp;
    PassIsReady(cfg, env, db, s, stepId, content, now);
  }

  lemma PassIsReady(cfg: Config, env: Env, db: Db, s: Sid, stepId: StepId, content: string, now: int)
    requires AllPass(AllSubmitGuards(cfg, env, db, s, stepId, content)) && Known(cfg, db, s)
    ensures var row, wf := db.sessions[s], cfg.workflows[db.sessions[s].workflowType];
            Resolve(cfg, db, s, now) == Ready(row, wf) && stepId != "" && SubmitRefusal(env, db, s, row, wf, stepId, content).None?
  {
    hide SubmitGuards, GuardsOf, SessionGuards, AllPass, Refuses, SubmitRefusal, Resolve;
    var row, wf := db.sessions[s], cfg.workflows[db.sessions[s].workflowType];
    GuardsPass(stepId == "", cfg, db, s, SubmitGuards(env, db, s, row, wf, stepId, content), now);
    SubmitGuardsMean(env, db, s, row, wf, stepId, content);
    SessionGuardsMean(cfg, db, s, now);
  }

  /** Every guard passed, and the step has intermediate artifacts: one it does not define is refused,
      one whose schema rejects the content fails, both without a trace; any other than the output
      artifact is taken, kept if its definition asks for it, and moves nothing. */
  lemma ArtifactTaken(cfg: Config, env: Env, db: Db, s: Sid, stepId: StepId, content: string, branch: string, artifact: string, now: int)
    requires WellFormedConfig(cfg) && AllPass(AllSubmitGuards(cfg, env, db, s, stepId, content)) && Known(cfg, db, s)
    requires var wf := cfg.workflows[db.sessions[s].workflowType]; FindStep(wf, stepId) >= 0 && wf.steps[FindStep(wf, stepId)].artifacts != []
    ensures var (b, reply) := SubmitStep(cfg, env, db, s, stepId, content, branch, artifact, now);
            var row, wf := db.sessions[s], cfg.workflows[db.sessions[s].workflowType];
            var step := wf.steps[FindStep(wf, stepId)];
            && (artifact == "" ==> reply == Error(InvalidArgument) && b == db)
            && (artifact != "" && (forall d :: !Defines(step, artifact, d)) ==> reply == Error(UnknownArtifact) && b == db)
            && (forall d :: artifact != "" && Defines(step, artifact, d) && !env.conformsArtifact(d.schema, content) ==>
                  reply == ValidationError(false) && b == db)
            && (forall d :: artifact != "" && Defines(step, artifact, d) && env.conformsArtifact(d.schema, content) && artifact != step.outputFrom ==>
                  reply == ArtifactAccepted(s, stepId) && OnlyRow(db, b, s)
                  && s in b.sessions && b.sessions[s] == WithArtifact(row, step, artifact, content, now))
  {
    hide Commit, AllPass, TopFrame, GuardsOf, FindArtifact, Defines, OnlyRow, StoreArtifact, UniqueIds, BackwardRefs, TargetsExist, FieldRules,
         ForwardMcp;
    PassIsReady(cfg, env, db, s, stepId, content, now);
    var wf := cfg.workflows[db.sessions[s].workflowType];
    var step := wf.steps[FindStep(wf, stepId)];
    FoundIsDefined(step, step.artifacts, 0, artifact);
    BaseRow(db, s, step, artifact, content, now);
  }

  // --- revise_step -------------------------------------------------------------------------------------

  ghost function ReviseGuards(db: Db, s: Sid, row: Session, wf: Workflow, stepId: StepId): seq<Guard> {
    var i := FindStep(wf, stepId);
    [Guard(s in db.frames, ParentOwned),
     Guard(i < 0, InvalidArgument),
     Guard(i >= 0 && stepId !in row.stepData && (wf.steps[i].call.None? || !FrameAbove(db, s)), InvalidArgument)]
  }

  ghost function AllReviseGuards(cfg: Config, db: Db, s: Sid, stepId: StepId): seq<Guard> {
    GuardsOf(stepId == "", cfg, db, s,
             if Known(cfg, db, s) then ReviseGuards(db, s, db.sessions[s], cfg.workflows[db.sessions[s].workflowType], stepId) else [])
  }

  lemma ReviseGuardsMean(db: Db, s: Sid, row: Session, wf: Workflow, stepId: StepId)
    ensures var g := ReviseGuards(db, s, row, wf, stepId);
            match ReviseRefusal(db, s, row, wf, stepId)
            case Some(code) => Refuses(g, Error(code)) && !AllPass(g)
            case None => AllPass(g)
  {
    hide TopFrame, FrameAbove;
    var g := ReviseGuards(db, s, row, wf, stepId);
    FrameAboveIsTop(db, s);
    var k := SomeFailsFirst(g);
    if FailsFirst(g, k) {
      assert k == 0 || k == 1 || k == 2;
      assert (k > 0 ==> !g[0].fails) && (k > 1 ==> !g[1].fails);
    } else {
      assert !g[0].fails && !g[1].fails && !g[2].fails;
    }
  }

  /** The child that revising step i of s drops: the frame directly above it, at a call-step. */
  ghost predicate Dropped(db: Db, s: Sid, step: Step, o: Sid) {
    step.call.Some? && o in db.frames && db.frames[o].root == s && db.frames[o].depth == 1
  }

  /** Entries of later steps are gone, and the step's own if it calls; the others are as they were. */
  ghost predicate Rewound(wf: Workflow, i: nat, a: StepData, b: StepData)
    requires i < |wf.steps|
  {
    && (forall id :: id in b <==> id in a && !(exists k :: i < k < |wf.steps| && wf.steps[k].id == id)
                                  && !(wf.steps[i].call.Some? && wf.steps[i].id == id))
    && forall id :: id in b ==> b[id] == a[id]
  }

  /** What an accepted revision writes. */
  ghost predicate Revision(cfg: Config, a: Db, b: Db, s: Sid, i: nat, now: int)
    requires Known(cfg, a, s) && i < |cfg.workflows[a.sessions[s].workflowType].steps|
  {
    var row, wf := a.sessions[s], cfg.workflows[a.sessions[s].workflowType];
    var step := wf.steps[i];
    && s in b.sessions && b.nextSid == a.nextSid && Rewound(wf, i, row.stepData, b.sessions[s].stepData)
    && b.sessions[s] == row.(currentStep := step.id, stepData := b.sessions[s].stepData, updatedAt := now,
                             called := if exists o :: Dropped(a, s, step, o) then None else row.called)
    && (forall o :: o in b.sessions <==> o in a.sessions && !Dropped(a, s, step, o))
    && (forall o :: o in b.sessions && o != s ==> b.sessions[o] == a.sessions[o])
    && (forall o :: o in b.frames <==> o in a.frames && !Dropped(a, s, step, o))
    && (forall o :: o in b.frames ==> b.frames[o] == a.frames[o])
  }

  /** A revision is refused by the first guard that fails; otherwise the pointer goes back to the
      step, later entries and a call-step's own are dropped, and the child above a call-step goes. */
  lemma ReviseMeans(cfg: Config, db: Db, s: Sid, stepId: StepId, now: int)
    requires WellFormedConfig(cfg) && Sound(db)
    ensures var (b, reply) := ReviseStep(cfg, db, s, stepId, now);
            var guards := AllReviseGuards(cfg, db, s, stepId);
            if AllPass(guards) then
              && Known(cfg, db, s)
              && var wf := cfg.workflows[db.sessions[s].workflowType];
                 var i := FindStep(wf, stepId);
                 i >= 0 && Revision(cfg, db, b, s, i, now)
                 && reply == if wf.steps[i].action.McpToolCall? then Crash else Revised(s, stepId)
            else Refuses(guards, reply) && Untouched(cfg, db, b, s, now)
  {
    hide Refuses, ReviseGuards, GuardsOf, AllPass, Untouched, TopFrame, ReviseTo, Revision, Sound, UniqueIds, BackwardRefs, TargetsExist,
         FieldRules, ForwardMcp;
    var (b, reply) := ReviseStep(cfg, db, s, stepId, now);
    SessionGuardsMean(cfg, db, s, now);
    ResolveWrites(cfg, db, s, now);
    NothingTouched(cfg, db, s, now);
    var own := if Known(cfg, db, s) then ReviseGuards(db, s, db.sessions[s], cfg.workflows[db.sessions[s].workflowType], stepId) else [];
    if Known(cfg, db, s) {
      ReviseGuardsMean(db, s, db.sessions[s], cfg.workflows[db.sessions[s].workflowType], stepId);
    }
    GuardsPass(stepId == "", cfg, db, s, own, now);
    if !AllPass(GuardsOf(stepId == "", cfg, db, s, own)) {
      GuardsRefuse(stepId == "", cfg, db, s, own, now, reply);
    } else {
      ReviseToMeans(cfg, db, s, FindStep(cfg.workflows[db.sessions[s].workflowType], stepId), now);
    }
  }

  lemma DropMeans(db: Db, s: Sid, steps: set<StepId>, now: int)
    requires s in db.sessions
    ensures DropData(db, s, steps, now) ==
            db.(sessions := db.sessions[s := db.sessions[s].(stepData := db.sessions[s].stepData - steps, updatedAt := now)])
  {
  }

  lemma BackMeans(db: Db, s: Sid, step: StepId, now: int)
    requires s in db.sessions && step != COMPLETE
    ensures SetStep(db, s, step, now) == db.(sessions := db.sessions[s := db.sessions[s].(currentStep := step, updatedAt := now)])
  {
  }

  lemma UnlinkMeans(db: Db, c: Sid, s: Sid, now: int)
    requires Sound(db) && s in db.sessions && s !in db.frames && TopFrame(db, s) == Some(c)
    ensures var b := Unlink(db, c, s, now);
            && b.nextSid == db.nextSid && c != s
            && b.sessions == (db.sessions - {c})[s := db.sessions[s].(called := None, updatedAt := now)]
            && (forall o :: o in b.frames <==> o in db.frames && o != c)
            && (forall o :: o in b.frames ==> b.frames[o] == db.frames[o])
    ensures forall o :: o in db.frames && db.frames[o].root == s && db.frames[o].depth == 1 <==> o == c
  {
    assert IsTopFrame(db, s, c);
    assert forall o :: o in db.frames && db.frames[o].root == s && db.frames[o].depth == 1 ==> IsTopFrame(db, s, o) && FrameIn(db.frames, o, s, 1);
    assert FrameIn(db.frames, c, s, 1);
  }

  lemma NoneDropped(db: Db, s: Sid)
    requires s !in db.frames && TopFrame(db, s) == None
    ensures forall o :: o in db.frames ==> !(db.frames[o].root == s && db.frames[o].depth == 1)
  {
    assert forall o :: o in db.frames && db.frames[o].root == s && db.frames[o].depth == 1 ==> IsTopFrame(db, s, o);
  }

  /** The entries a revision leaves. */
  function LeftData(wf: Workflow, i: nat, data: StepData): StepData
    requires i < |wf.steps|
  {
    if wf.steps[i].call.Some? then data - StepsAfter(wf, i) - {wf.steps[i].id} else data - StepsAfter(wf, i)
  }

  lemma LeftIsRewound(wf: Workflow, i: nat, data: StepData)
    requires i < |wf.steps|
    ensures Rewound(wf, i, data, LeftData(wf, i, data))
  {
  }

  lemma ReviseRow(db: Db, s: Sid, wf: Workflow, i: nat, now: int)
    requires i < |wf.steps| && UniqueIds(wf) && s in db.sessions && !(wf.steps[i].call.Some? && TopFrame(db, s).Some?)
    ensures ReviseTo(db, s, wf, i, now) ==
            db.(sessions := db.sessions[s := db.sessions[s].(currentStep := wf.steps[i].id, updatedAt := now,
                                                             stepData := LeftData(wf, i, db.sessions[s].stepData))])
  {
    hide DropData, SetStep, TopFrame, StepsAfter, UniqueIds, Unlink;
    var step := wf.steps[i];
    PositionOfIdAt(wf, i);
    StepsAreNotComplete(wf, step.id);
    var db1 := DropData(db, s, StepsAfter(wf, i), now);
    DropMeans(db, s, StepsAfter(wf, i), now);
    if step.call.Some? {
      DropMeans(db1, s, {step.id}, now);
      BackMeans(DropData(db1, s, {step.id}, now), s, step.id, now);
    } else {
      BackMeans(db1, s, step.id, now);
    }
  }

  lemma ReviseChild(db: Db, s: Sid, wf: Workflow, i: nat, now: int)
    requires i < |wf.steps| && UniqueIds(wf) && Sound(db) && s in db.sessions && s !in db.frames
    requires wf.steps[i].call.Some? && TopFrame(db, s).Some?
    ensures var b, c := ReviseTo(db, s, wf, i, now), TopFrame(db, s).value;
            && b.nextSid == db.nextSid && c != s
            && b.sessions == (db.sessions - {c})[s := db.sessions[s].(currentStep := wf.steps[i].id, updatedAt := now, called := None,
                                                                      stepData := LeftData(wf, i, db.sessions[s].stepData))]
            && (forall o :: o in b.frames <==> o in db.frames && o != c)
            && (forall o :: o in b.frames ==> b.frames[o] == db.frames[o])
  {
    hide DropData, SetStep, TopFrame, StepsAfter, UniqueIds, Unlink, Sound, SameShape;
    var step, c := wf.steps[i], TopFrame(db, s).value;
    PositionOfIdAt(wf, i);
    StepsAreNotComplete(wf, step.id);
    var db1 := DropData(db, s, StepsAfter(wf, i), now);
    DropMeans(db, s, StepsAfter(wf, i), now);
    DropDataSameShape(db, s, StepsAfter(wf, i), now);
    SameShapeSound(db, db1);
    SameTop(db, db1, s);
    UnlinkMeans(db1, c, s, now);
    var db2 := Unlink(db1, c, s, now);
    DropMeans(db2, s, {step.id}, now);
    BackMeans(DropData(db2, s, {step.id}, now), s, step.id, now);
  }

  lemma ReviseToMeans(cfg: Config, db: Db, s: Sid, i: nat, now: int)
    requires Sound(db) && Known(cfg, db, s) && s !in db.frames && i < |cfg.workflows[db.sessions[s].workflowType].steps|
    requires UniqueIds(cfg.workflows[db.sessions[s].workflowType])
    ensures Revision(cfg, db, ReviseTo(db, s, cfg.workflows[db.sessions[s].workflowType], i, now), s, i, now)
  {
    hide ReviseTo, TopFrame, Sound, Rewound, UniqueIds, LeftData;
    var wf := cfg.workflows[db.sessions[s].workflowType];
    LeftIsRewound(wf, i, db.sessions[s].stepData);
    if wf.steps[i].call.Some? && TopFrame(db, s).Some? {
      var c := TopFrame(db, s).value;
      ReviseChild(db, s, wf, i, now);
      UnlinkMeans(db, c, s, now);
      assert Dropped(db, s, wf.steps[i], c);
    } else {
      ReviseRow(db, s, wf, i, now);
      if wf.steps[i].call.Some? {
        NoneDropped(db, s);
      }
    }
  }

  lemma SameTop(a: Db, b: Db, s: Sid)
    requires a.frames == b.frames
    ensures TopFrame(a, s) == TopFrame(b, s)
  {
  }
}
