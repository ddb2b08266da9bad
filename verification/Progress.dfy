/** Order of progress in workflows without branches: before the current step every step is
    stored or skipped, never both; after it nothing is stored; and the position only grows,
    except by revision. */
module Progress {
  import opened Workflows
  import opened References
  import opened McpArguments
  import opened Stepping
  import opened InlineExecution
  import opened Tables
  import opened ToolSpecs
  import opened StackSafety
  import opened Soundness
  import opened SessionMoves
  import opened ToolMoves

  /** No branches and no force_branch guardrail. */
  ghost predicate Linear(wf: Workflow) {
    && (forall i :: 0 <= i < |wf.steps| ==> wf.steps[i].branches == [])
    && (forall g :: g in wf.guardrails ==> !g.action.ForceBranch?)
  }

  ghost predicate Listed(env: Env, wf: Workflow, data: StepData, j: nat)
    requires j < |wf.steps|
  {
    wf.steps[j].id in SkippedSteps(env, wf, data)
  }

  /** Step j is in exactly one of step_data and the computed skipped list. */
  ghost predicate Settled(env: Env, wf: Workflow, data: StepData, j: nat)
    requires j < |wf.steps|
  {
    (wf.steps[j].id in data) != Listed(env, wf, data, j)
  }

  ghost predicate Unstored(wf: Workflow, data: StepData, j: nat)
    requires j < |wf.steps|
  {
    wf.steps[j].id !in data
  }

  /** Everything before position i is settled and nothing from `from` on is stored. */
  ghost predicate Ordered(env: Env, wf: Workflow, data: StepData, i: nat, from: nat)
    requires i <= |wf.steps|
  {
    && (forall j :: 0 <= j < i ==> Settled(env, wf, data, j))
    && (forall j :: from <= j < |wf.steps| ==> Unstored(wf, data, j))
  }

  /** The order of a session row; the current step itself may be stored (a guardrail escalation
      stores without moving, a revision keeps the old content). */
  ghost predicate InOrder(env: Env, wf: Workflow, row: Session) {
    || row.currentStep == WORKFLOW_CHANGED
    || (Pointer(wf, row.currentStep)
        && Ordered(env, wf, row.stepData, Position(wf, row.currentStep), Position(wf, row.currentStep) + 1))
  }

  // --- Whether a step is settled depends on the steps before it -----------------------------

  ghost predicate SameAt(a: StepData, b: StepData, sid: StepId) {
    (sid in a <==> sid in b) && (sid in a ==> a[sid] == b[sid])
  }

  ghost predicate AgreeBelow(wf: Workflow, a: StepData, b: StepData, k: nat) {
    forall sid :: FindStep(wf, sid) < k ==> SameAt(a, b, sid)
  }

  lemma {:induction false} SkippedUpToLocal(env: Env, wf: Workflow, a: StepData, b: StepData, k: nat)
    requires UniqueIds(wf) && BackwardRefs(wf) && k <= |wf.steps| && AgreeBelow(wf, a, b, k)
    ensures SkippedUpTo(env, wf, a, k) == SkippedUpTo(env, wf, b, k)
  {
    if k > 0 {
      SkippedUpToLocal(env, wf, a, b, k - 1);
      var step := wf.steps[k - 1];
      PositionOfIdAt(wf, k - 1);
      assert SameAt(a, b, step.id);
      if step.precondition.Some? {
        assert SameAt(a, b, step.precondition.value.ref.sid);
      }
    }
  }

  lemma SettledLocal(env: Env, wf: Workflow, a: StepData, b: StepData, k: nat, j: nat)
    requires UniqueIds(wf) && BackwardRefs(wf) && j < k <= |wf.steps| && AgreeBelow(wf, a, b, k)
    ensures Settled(env, wf, a, j) <==> Settled(env, wf, b, j)
  {
    var id := wf.steps[j].id;
    PositionOfIdAt(wf, j);
    assert SameAt(a, b, id);
    SkippedUpToLocal(env, wf, a, b, j);
    SkippedUpToMembers(env, wf, a, |wf.steps|, id);
    SkippedUpToMembers(env, wf, b, |wf.steps|, id);
    if wf.steps[j].precondition.Some? {
      assert SameAt(a, b, wf.steps[j].precondition.value.ref.sid);
    }
  }

  lemma StoredIsSettled(env: Env, wf: Workflow, data: StepData, j: nat)
    requires UniqueIds(wf) && j < |wf.steps| && wf.steps[j].id in data
    ensures Settled(env, wf, data, j)
  {
    SkippedUpToMembers(env, wf, data, |wf.steps|, wf.steps[j].id);
  }

  /** Storing the current step settles it and keeps the rest. */
  lemma StoreSettles(env: Env, wf: Workflow, data: StepData, i: nat, content: string)
    requires UniqueIds(wf) && BackwardRefs(wf) && i < |wf.steps| && Ordered(env, wf, data, i, i + 1)
    ensures Ordered(env, wf, data[wf.steps[i].id := content], i + 1, i + 1)
  {
    var data' := data[wf.steps[i].id := content];
    PositionOfIdAt(wf, i);
    StoredIsSettled(env, wf, data', i);
    forall j | 0 <= j < i ensures Settled(env, wf, data', j) {
      SettledLocal(env, wf, data, data', i, j);
    }
    forall j | i + 1 <= j < |wf.steps| ensures Unstored(wf, data', j) {
      assert Unstored(wf, data, j);
    }
  }

  // --- The skip loop and the MCP steps keep the order ------------------------------------------

  lemma SkipKeepsOrder(env: Env, wf: Workflow, data: StepData, i: nat)
    requires UniqueIds(wf) && BackwardRefs(wf) && i <= |wf.steps| && Ordered(env, wf, data, i, i)
    ensures var r := ApplySkips(env, wf, data, IdAt(wf, i), false);
            r.At? ==> && Pointer(wf, r.id) && Position(wf, r.id) >= i
                      && Ordered(env, wf, data, Position(wf, r.id), Position(wf, r.id))
  {
    PositionOfIdAt(wf, i);
    if i < |wf.steps| {
      forall m | i <= m < |wf.steps| ensures wf.steps[m].id !in data {
        assert Unstored(wf, data, m);
      }
      var j := SkipLoopMeaning(env, wf, data, i);
      PositionOfIdAt(wf, j);
      assert forall m :: i <= m < j ==> Listed(env, wf, data, m);
    }
  }

  lemma {:induction false} RunKeepsOrder(env: Env, wf: Workflow, data: StepData, i: nat, executed: seq<StepId>)
    requires UniqueIds(wf) && BackwardRefs(wf) && ForwardMcp(wf) && Linear(wf)
    requires i <= |wf.steps| && Ordered(env, wf, data, i, i)
    ensures var r := AutoRun(env, wf, IdAt(wf, i), data, executed);
            && Pointer(wf, r.at) && Position(wf, r.at) >= i
            && Ordered(env, wf, r.data, Position(wf, r.at), Position(wf, r.at))
    decreases |wf.steps| - i
  {
    hide SkippedSteps, ExecuteMcpStep, ApplySkips, Ordered;
    PositionOfIdAt(wf, i);
    if i < |wf.steps| && wf.steps[i].action.McpToolCall? {
      var step := wf.steps[i];
      var e := ExecuteMcpStep(env, step.id, step.action.args, data, Elements(SkippedSteps(env, wf, data)));
      if e.Some? {
        var data' := data[step.id := env.dumps(e.value)];
        OrderedFromLater(env, wf, data, i, i, i + 1);
        StoreSettles(env, wf, data, i, env.dumps(e.value));
        PositionOfIdAt(wf, i + 1);
        SkipKeepsOrder(env, wf, data', i + 1);
        var s := ApplySkips(env, wf, data', IdAt(wf, i + 1), false);
        if s.At? {
          IdAtPosition(wf, s.id);
          RunKeepsOrder(env, wf, data', Position(wf, s.id), executed + [step.id]);
        }
      }
    }
  }

  lemma IdAtPosition(wf: Workflow, id: StepId)
    requires UniqueIds(wf) && Pointer(wf, id)
    ensures IdAt(wf, Position(wf, id)) == id
  {
  }

  lemma OrderedFromLater(env: Env, wf: Workflow, data: StepData, i: nat, from: nat, later: nat)
    requires i <= |wf.steps| && from <= later && Ordered(env, wf, data, i, from)
    ensures Ordered(env, wf, data, i, later)
  {
  }

  /** Moving on from step i, with its content stored, ends strictly after i and in order. */
  lemma MoveKeepsOrder(env: Env, wf: Workflow, data: StepData, i: nat)
    requires WellFormedWorkflow(wf) && Linear(wf) && i < |wf.steps| && Ordered(env, wf, data, i + 1, i + 1)
    ensures var m := Move(env, wf, NextInOrder(wf, i), data, false);
            !m.Blocked? ==> && Pointer(wf, m.at) && Position(wf, m.at) > i
                            && Ordered(env, wf, m.data, Position(wf, m.at), Position(wf, m.at) + 1)
  {
    hide Ordered, ApplySkips, AutoRun;
    assert NextInOrder(wf, i) == IdAt(wf, i + 1);
    SkipKeepsOrder(env, wf, data, i + 1);
    var s := ApplySkips(env, wf, data, IdAt(wf, i + 1), false);
    if s.At? {
      IdAtPosition(wf, s.id);
      RunKeepsOrder(env, wf, data, Position(wf, s.id), []);
      var r := AutoRun(env, wf, s.id, data, []);
      OrderedFromLater(env, wf, r.data, Position(wf, r.at), Position(wf, r.at), Position(wf, r.at) + 1);
    }
  }

  // --- One session over one call ------------------------------------------------------------------

  lemma StoringKeepsOrder(env: Env, wf: Workflow, a: Session, b: Session)
    requires WellFormedWorkflow(wf) && Stores(env, wf, a, b) && InOrder(env, wf, a) && a.currentStep != WORKFLOW_CHANGED
    ensures InOrder(env, wf, b)
  {
    var i := FindStep(wf, a.currentStep);
    StoreSettles(env, wf, a.stepData, i, b.stepData[a.currentStep]);
  }

  lemma AdvancingKeepsOrder(env: Env, wf: Workflow, a: Session, b: Session, content: string, next: StepId, forced: bool)
    requires WellFormedWorkflow(wf) && Linear(wf) && Advances(env, wf, a, b, content, next, forced)
    requires InOrder(env, wf, a) && a.currentStep != WORKFLOW_CHANGED
    ensures InOrder(env, wf, b) && Position(wf, b.currentStep) > Position(wf, a.currentStep)
  {
    hide Ordered, Move;
    var i := FindStep(wf, a.currentStep);
    assert !forced && next == NextInOrder(wf, i);
    StoreSettles(env, wf, a.stepData, i, content);
    MoveKeepsOrder(env, wf, a.stepData[a.currentStep := content], i);
  }

  /** Outside revision a call keeps the order of every session, and a session that changed its
      position without being terminated stands strictly later. */
  lemma MovesKeepOrder(cfg: Config, env: Env, a: Session, b: Session)
    requires WellFormedConfig(cfg) && a.workflowType in cfg.workflows && Linear(cfg.workflows[a.workflowType])
    requires Moves(cfg, env, a, b) && InOrder(env, cfg.workflows[a.workflowType], a)
    ensures var wf := cfg.workflows[a.workflowType];
            && InOrder(env, wf, b)
            && (b.currentStep == a.currentStep || b.currentStep == WORKFLOW_CHANGED
                || Position(wf, b.currentStep) > Position(wf, a.currentStep))
  {
    hide Ordered, Advances, UniqueIds, BackwardRefs, TargetsExist, FieldRules, ForwardMcp;
    var wf := cfg.workflows[a.workflowType];
    if Live(cfg, a) && Stores(env, wf, a, b) {
      StoringKeepsOrder(env, wf, a, b);
    } else if Live(cfg, a) && exists content, next, forced :: Advances(env, wf, a, b, content, next, forced) {
      var content, next, forced :| Advances(env, wf, a, b, content, next, forced);
      AdvancingKeepsOrder(env, wf, a, b, content, next, forced);
    }
  }

  // --- Revision -------------------------------------------------------------------------------------

  /** Every step from the current one up to the target is stored or skipped; so it is when the
      target is stored or not after the current step. */
  ghost predicate Covered(env: Env, wf: Workflow, row: Session, t: nat)
    requires t < |wf.steps|
  {
    forall j :: Position(wf, row.currentStep) <= j < t ==> Settled(env, wf, row.stepData, j)
  }

  lemma StoredTargetIsCovered(env: Env, wf: Workflow, row: Session, t: nat)
    requires InOrder(env, wf, row) && row.currentStep != WORKFLOW_CHANGED && t < |wf.steps|
    requires wf.steps[t].id in row.stepData || t <= Position(wf, row.currentStep)
    ensures Covered(env, wf, row, t)
  {
    assert t > Position(wf, row.currentStep) ==> Unstored(wf, row.stepData, t);
  }

  /** A revision keeps the order if and only if its target is covered. */
  lemma RevisionKeepsOrderIff(env: Env, wf: Workflow, a: Session, b: Session, t: nat)
    requires WellFormedWorkflow(wf) && t < |wf.steps| && Returns(wf, a, b, t)
    requires InOrder(env, wf, a) && a.currentStep != WORKFLOW_CHANGED
    ensures InOrder(env, wf, b) <==> Covered(env, wf, a, t)
  {
    hide BackwardRefs, TargetsExist, FieldRules, ForwardMcp, SkippedSteps;
    PositionOfIdAt(wf, t);
    assert AgreeBelow(wf, a.stepData, b.stepData, t);
    forall j | 0 <= j < t ensures Settled(env, wf, a.stepData, j) <==> Settled(env, wf, b.stepData, j) {
      SettledLocal(env, wf, a.stepData, b.stepData, t, j);
    }
    forall j | t < j < |wf.steps| ensures Unstored(wf, b.stepData, j) {
      assert wf.steps[j].id in StepsAfter(wf, t);
    }
  }

  /** A call-step after the current step is accepted as a target while any child is in flight:
      the call answers, and the order is broken when the current step is neither stored nor
      skipped. Only a step whose id is the empty string cannot be named. */
  lemma UnreachedTargetBreaksOrder(cfg: Config, env: Env, db: Db, s: Sid, t: nat, now: int)
    requires WellFormedConfig(cfg) && s in db.sessions && s !in db.frames && Live(cfg, db.sessions[s])
    requires TopFrame(db, s).Some?
    requires var wf := cfg.workflows[db.sessions[s].workflowType]; var row := db.sessions[s];
             && t < |wf.steps| && wf.steps[t].call.Some? && InOrder(env, wf, row)
             && Position(wf, row.currentStep) < t && !Settled(env, wf, row.stepData, Position(wf, row.currentStep))
    ensures var wf := cfg.workflows[db.sessions[s].workflowType];
            var (b, reply) := ReviseStep(cfg, db, s, wf.steps[t].id, now);
            if wf.steps[t].id == "" then b == db && reply == Error(InvalidArgument)
            else !reply.Error? && s in b.sessions && !InOrder(env, wf, b.sessions[s])
  {
    hide ReviseTo, SkippedSteps, UniqueIds, BackwardRefs, TargetsExist, FieldRules, ForwardMcp;
    var row := db.sessions[s];
    var wf := cfg.workflows[row.workflowType];
    PositionOfIdAt(wf, t);
    NotOwnTop(db, s);
    ReviseToWrites(db, s, wf, t, now);
    RevisionKeepsOrderIff(env, wf, row, ReviseTo(db, s, wf, t, now).sessions[s], t);
  }

  // --- Accepted submissions -----------------------------------------------------------------------

  /** The reply names the session that went on and where it stands now; in a linear workflow that
      is strictly later than before. */
  ghost predicate WentOn(cfg: Config, a: Db, b: Db, reply: Reply) {
    reply.Advanced? || reply.Finished? ==>
      && reply.session in a.sessions && reply.session in b.sessions
      && a.sessions[reply.session].workflowType in cfg.workflows
      && b.sessions[reply.session].currentStep == (if reply.Finished? then COMPLETE else reply.step)
      && var wf := cfg.workflows[a.sessions[reply.session].workflowType];
         Linear(wf) ==> Position(wf, b.sessions[reply.session].currentStep) > Position(wf, a.sessions[reply.session].currentStep)
  }

  lemma MoveForward(env: Env, wf: Workflow, i: nat, data: StepData)
    requires WellFormedWorkflow(wf) && i < |wf.steps|
    ensures var m := Move(env, wf, NextInOrder(wf, i), data, false); !m.Blocked? ==> Position(wf, m.at) > i
  {
    PositionOfIdAt(wf, i + 1);
    ApplySkipsForward(env, wf, data, NextInOrder(wf, i), false);
    var s := ApplySkips(env, wf, data, NextInOrder(wf, i), false);
    if s.At? {
      AutoRunFrom(env, wf, s.id, data);
    }
  }

  lemma MovementWentOn(cfg: Config, a: Db, db: Db, p: Sid, wf: Workflow, m: Movement, now: int)
    requires p in a.sessions && p in db.sessions && a.sessions[p].workflowType in cfg.workflows
    requires wf == cfg.workflows[a.sessions[p].workflowType]
    requires m.Moved? && (Linear(wf) ==> Position(wf, m.at) > Position(wf, a.sessions[p].currentStep))
    ensures forall propagated :: WentOn(cfg, a, WriteMovement(db, p, m, now), AdvanceReply(p, wf, m.at, propagated))
  {
    hide WriteMovement;
    MovementWrites(db, p, m, now);
  }

  lemma ParentWentOn(cfg: Config, env: Env, a: Db, db: Db, p: Sid, i: nat, data: StepData, now: int)
    requires WellFormedConfig(cfg) && p in a.sessions && p in db.sessions && a.sessions[p].workflowType in cfg.workflows
    requires var wf := cfg.workflows[a.sessions[p].workflowType]; i == FindStep(wf, a.sessions[p].currentStep)
    ensures var (b, reply) := AdvanceParent(env, db, p, cfg.workflows[a.sessions[p].workflowType], i, data, now);
            WentOn(cfg, a, b, reply)
  {
    hide Move, WriteMovement, WentOn, AdvanceReply, UniqueIds, BackwardRefs, TargetsExist, FieldRules, ForwardMcp;
    var wf := cfg.workflows[a.sessions[p].workflowType];
    var (b, reply) := AdvanceParent(env, db, p, wf, i, data, now);
    MoveForward(env, wf, i, data);
    if wf.steps[i].branches != [] && wf.steps[i].defaultBranch.None? {
      NotOn(cfg, a, b, reply);
    } else {
      var next := if wf.steps[i].branches != [] then wf.steps[i].defaultBranch.value else NextInOrder(wf, i);
      var m := Move(env, wf, next, data, false);
      if m.Moved? {
        MovementWentOn(cfg, a, db, p, wf, m, now);
      } else {
        NotOn(cfg, a, b, reply);
      }
    }
  }

  lemma AutoResumeWentOn(cfg: Config, env: Env, a: Db, db: Db, child: Sid, p: Sid, childWf: Workflow, data: StepData, now: int)
    requires WellFormedConfig(cfg) && |childWf.steps| > 0 && child != p
    requires p in db.sessions ==> p in a.sessions && db.sessions[p].workflowType == a.sessions[p].workflowType
                                  && db.sessions[p].currentStep == a.sessions[p].currentStep
    ensures var (b, reply) := AutoResume(cfg, env, db, child, p, childWf, data, now); WentOn(cfg, a, b, reply)
  {
    hide WentOn, AdvanceParent, UniqueIds, BackwardRefs, TargetsExist, FieldRules, ForwardMcp;
    var artifact := FinalArtifact(childWf, data);
    var (b, reply) := AutoResume(cfg, env, db, child, p, childWf, data, now);
    match HandoverOf(cfg, env, db, child, p, artifact, now)
    case Withheld(_, _) =>
      assert !reply.Advanced? && !reply.Finished?;
      NotOn(cfg, a, b, reply);
    case Delivered(row, wf, i) =>
      if child in db.frames && db.frames[child].kind == DigressionFrame {
        NotOn(cfg, a, b, reply);
      } else {
        UnlinkRests(db, child, p, now);
        ParentWentOn(cfg, env, a, Unlink(db, child, p, now), p, i, row.stepData[row.currentStep := artifact], now);
      }
  }

  lemma NotOn(cfg: Config, a: Db, b: Db, reply: Reply)
    requires !reply.Advanced? && !reply.Finished?
    ensures WentOn(cfg, a, b, reply)
  {
  }

  lemma RouteWentOn(cfg: Config, env: Env, db: Db, s: Sid, row: Session, i: nat, content: string, next: StepId, forced: bool, now: int)
    requires WellFormedConfig(cfg) && Sound(db) && s in db.sessions && Rests(row, db.sessions[s]) && row.workflowType in cfg.workflows
    requires var wf := cfg.workflows[row.workflowType];
             i == FindStep(wf, row.currentStep) && RoutesTo(wf, i, next, forced)
    ensures var wf := cfg.workflows[row.workflowType];
            var m := Move(env, wf, next, row.stepData[row.currentStep := content], forced);
            var db1 := WriteMovement(db, s, m, now);
            m.Moved? ==>
              && WentOn(cfg, db, db1, AdvanceReply(s, wf, m.at, false))
              && (ParentOf(db1, s).Some? ==>
                    var (b, reply) := AutoResume(cfg, env, db1, s, ParentOf(db1, s).value, wf, m.data, now);
                    WentOn(cfg, db, b, reply))
  {
    hide Move, WriteMovement, AutoResume, BackwardRefs, TargetsExist, FieldRules;
    var wf := cfg.workflows[row.workflowType];
    var data := row.stepData[row.currentStep := content];
    var m := Move(env, wf, next, data, forced);
    var db1 := WriteMovement(db, s, m, now);
    MovementWrites(db, s, m, now);
    MovementSameShape(db, s, m, now);
    if m.Moved? {
      MoveForward(env, wf, i, data);
      if ParentOf(db1, s).Some? {
        var p := ParentOf(db1, s).value;
        NeighboursUnique(db, s);
        AutoResumeWentOn(cfg, env, db, db1, s, p, wf, m.data, now);
      }
    }
  }

  lemma CommitWentOn(cfg: Config, env: Env, db: Db, s: Sid, row: Session, i: nat, content: string, branch: string, now: int)
    requires WellFormedConfig(cfg) && Sound(db) && s in db.sessions && Rests(row, db.sessions[s]) && row.workflowType in cfg.workflows
    requires i == FindStep(cfg.workflows[row.workflowType], row.currentStep)
    ensures var (b, reply) := Commit(cfg, env, db, s, row, cfg.workflows[row.workflowType], i, content, branch, now);
            WentOn(cfg, db, b, reply)
  {
    hide Move, WriteMovement, AutoResume, WentOn, Sound, UniqueIds, BackwardRefs, TargetsExist, FieldRules,
         ForwardMcp, RoutesTo;
    var wf := cfg.workflows[row.workflowType];
    var data := row.stepData[row.currentStep := content];
    var fired := FirstGuardrail(env, wf.guardrails, content, data, row, row.currentStep);
    var (b, reply) := Commit(cfg, env, db, s, row, wf, i, content, branch, now);
    RequestedRoutes(wf, i, content, data, row, env, branch);
    var requested := Requested(wf, i, fired, branch);
    if requested.Some? {
      RouteWentOn(cfg, env, db, s, row, i, content, requested.value.0, requested.value.1, now);
    }
    if !reply.Advanced? && !reply.Finished? {
      NotOn(cfg, db, b, reply);
    }
  }

  lemma WentOnFromStored(cfg: Config, a: Db, a': Db, b: Db, reply: Reply)
    requires AllRest(a, a') && WentOn(cfg, a', b, reply)
    ensures WentOn(cfg, a, b, reply)
  {
  }

  /** Every accepted submission strictly increases the position of the session its reply names:
      the submitted one, or the parent its child was handed to. */
  lemma AcceptedSubmissionGoesOn(cfg: Config, env: Env, db: Db, s: Sid, stepId: StepId, content: string, branch: string,
                                 artifact: string, now: int)
    requires WellFormedConfig(cfg) && Sound(db)
    ensures var (b, reply) := SubmitStep(cfg, env, db, s, stepId, content, branch, artifact, now); WentOn(cfg, db, b, reply)
  {
    hide SubmitStep, Commit, CommitBase, WentOn, Sound, UniqueIds, BackwardRefs, TargetsExist, FieldRules, ForwardMcp, Stale;
    var (b, reply) := SubmitStep(cfg, env, db, s, stepId, content, branch, artifact, now);
    AcceptedCommits(cfg, env, db, s, stepId, content, branch, artifact, now);
    if !reply.Advanced? && !reply.Finished? {
      NotOn(cfg, db, b, reply);
    } else {
      var row, wf := db.sessions[s], cfg.workflows[db.sessions[s].workflowType];
      var i := FindStep(wf, stepId);
      var base := CommitBase(db, s, wf.steps[i], artifact, content, now);
      BaseRests(db, s, wf.steps[i], artifact, content, now);
      SameShapeSound(db, base);
      CommitWentOn(cfg, env, base, s, row, i, content, branch, now);
      WentOnFromStored(cfg, db, base, b, reply);
    }
  }

  // --- Whole runs -------------------------------------------------------------------------------------

  /** JSON parsing and equality are the same; MCP outcomes and the rest may differ. */
  ghost predicate SameReading(e: Env, f: Env) {
    e.parse == f.parse && e.equal == f.equal
  }

  lemma {:induction false} SkippedSameReading(e: Env, f: Env, wf: Workflow, data: StepData, k: nat)
    requires SameReading(e, f) && k <= |wf.steps|
    ensures SkippedUpTo(e, wf, data, k) == SkippedUpTo(f, wf, data, k)
  {
    if k > 0 {
      SkippedSameReading(e, f, wf, data, k - 1);
    }
  }

  lemma InOrderSameReading(e: Env, f: Env, wf: Workflow, row: Session)
    requires SameReading(e, f)
    ensures InOrder(e, wf, row) <==> InOrder(f, wf, row)
  {
    SkippedSameReading(e, f, wf, row.stepData, |wf.steps|);
    assert forall j :: 0 <= j < |wf.steps| ==> (Settled(e, wf, row.stepData, j) <==> Settled(f, wf, row.stepData, j));
  }

  lemma CoveredSameReading(e: Env, f: Env, wf: Workflow, row: Session, t: nat)
    requires SameReading(e, f) && t < |wf.steps|
    ensures Covered(e, wf, row, t) <==> Covered(f, wf, row, t)
  {
    SkippedSameReading(e, f, wf, row.stepData, |wf.steps|);
    assert forall j :: 0 <= j < |wf.steps| ==> (Settled(e, wf, row.stepData, j) <==> Settled(f, wf, row.stepData, j));
  }

  ghost predicate AllInOrder(wfs: Catalogue, env: Env, db: Db) {
    forall s :: s in db.sessions && db.sessions[s].workflowType in wfs && Linear(wfs[db.sessions[s].workflowType])
      ==> InOrder(env, wfs[db.sessions[s].workflowType], db.sessions[s])
  }

  /** What a careful client checks before revising. */
  ghost predicate CarefulRevision(env: Env, wfs: Catalogue, db: Db, c: Call) {
    c.Revise? && c.s in db.sessions && db.sessions[c.s].workflowType in wfs ==>
      var wf := wfs[db.sessions[c.s].workflowType];
      FindStep(wf, c.stepId) >= 0 ==> Covered(env, wf, db.sessions[c.s], FindStep(wf, c.stepId))
  }

  lemma NothingStored(env: Env, wf: Workflow)
    ensures Ordered(env, wf, map[], 0, 0)
  {
  }

  lemma FreshInOrder(cfg: Config, env: Env, row: Session)
    requires WellFormedConfig(cfg) && FreshRow(cfg, env, row) && Linear(cfg.workflows[row.workflowType])
    ensures InOrder(env, cfg.workflows[row.workflowType], row)
  {
    hide Ordered, AutoRun, BackwardRefs, TargetsExist, FieldRules, ForwardMcp, FingerprintFor;
    var wf := cfg.workflows[row.workflowType];
    PositionOfIdAt(wf, 0);
    NothingStored(env, wf);
    OrderedFromLater(env, wf, map[], 0, 0, 1);
    RunKeepsOrder(env, wf, map[], 0, []);
    var r := AutoRun(env, wf, wf.steps[0].id, map[], []);
    OrderedFromLater(env, wf, r.data, Position(wf, r.at), Position(wf, r.at), Position(wf, r.at) + 1);
  }

  lemma RowKeepsOrder(e: Event, a: Db, b: Db, s: Sid)
    requires WellFormedConfig(e.cfg) && s in b.sessions && CallMoves(e, a, b, s)
    requires b.sessions[s].workflowType in e.cfg.workflows && Linear(e.cfg.workflows[b.sessions[s].workflowType])
    requires AllInOrder(e.cfg.workflows, e.env, a) && CarefulRevision(e.env, e.cfg.workflows, a, e.call)
    ensures InOrder(e.env, e.cfg.workflows[b.sessions[s].workflowType], b.sessions[s])
  {
    hide Moves, Covered, InOrder, FreshRow;
    if s !in a.sessions {
      FreshInOrder(e.cfg, e.env, b.sessions[s]);
    } else if Moves(e.cfg, e.env, a.sessions[s], b.sessions[s]) {
      MovesSameType(e.cfg, e.env, a.sessions[s], b.sessions[s]);
      MovesKeepOrder(e.cfg, e.env, a.sessions[s], b.sessions[s]);
    } else {
      var wf := e.cfg.workflows[a.sessions[s].workflowType];
      RevisionKeepsOrderIff(e.env, wf, a.sessions[s], b.sessions[s], FindStep(wf, e.call.stepId));
    }
  }

  lemma MovesSameType(cfg: Config, env: Env, a: Session, b: Session)
    requires WellFormedConfig(cfg) && Moves(cfg, env, a, b)
    ensures b.workflowType == a.workflowType
  {
  }

  /** One tool call, evictions included, keeps every session of a linear workflow in order. */
  lemma CallKeepsOrder(env: Env, db: Db, t: Tick)
    requires WellFormedConfig(t.event.cfg) && Sound(db) && SameReading(t.event.env, env)
    requires AllInOrder(t.event.cfg.workflows, env, db) && CarefulRevision(env, t.event.cfg.workflows, db, t.event.call)
    ensures AllInOrder(t.event.cfg.workflows, env, AfterTick(db, t))
  {
    hide CallMoves, InOrder, Covered;
    var e, wfs, b := t.event, t.event.cfg.workflows, AfterTick(db, t);
    ApplyMoves(db, e, t.victims);
    forall s | s in db.sessions && db.sessions[s].workflowType in wfs && Linear(wfs[db.sessions[s].workflowType])
      ensures InOrder(e.env, wfs[db.sessions[s].workflowType], db.sessions[s])
    {
      InOrderSameReading(e.env, env, wfs[db.sessions[s].workflowType], db.sessions[s]);
    }
    if e.call.Revise? && e.call.s in db.sessions && db.sessions[e.call.s].workflowType in wfs {
      var wf := wfs[db.sessions[e.call.s].workflowType];
      if FindStep(wf, e.call.stepId) >= 0 {
        CoveredSameReading(e.env, env, wf, db.sessions[e.call.s], FindStep(wf, e.call.stepId));
      }
    }
    forall s | s in b.sessions && b.sessions[s].workflowType in wfs && Linear(wfs[b.sessions[s].workflowType])
      ensures InOrder(env, wfs[b.sessions[s].workflowType], b.sessions[s])
    {
      RowKeepsOrder(e, db, b, s);
      InOrderSameReading(e.env, env, wfs[b.sessions[s].workflowType], b.sessions[s]);
    }
  }

  ghost predicate CarefulRevisions(env: Env, wfs: Catalogue, db: Db, ticks: seq<Tick>)
    requires Loaded(ticks)
    decreases |ticks|
  {
    ticks == [] || (CarefulRevision(env, wfs, db, ticks[0].event.call)
                    && CarefulRevisions(env, wfs, AfterTick(db, ticks[0]), ticks[1..]))
  }

  /** Over every run on unchanged workflows whose revisions are covered, each session of a
      linear workflow is in order: before its current step every step is stored or skipped and
      not both, after it none is stored. */
  lemma {:induction false} RunsKeepOrder(env: Env, wfs: Catalogue, db: Db, ticks: seq<Tick>)
    requires Sound(db) && Loaded(ticks) && AllInOrder(wfs, env, db)
    requires forall t :: t in ticks ==> t.event.cfg.workflows == wfs && SameReading(t.event.env, env)
    requires CarefulRevisions(env, wfs, db, ticks)
    ensures AllInOrder(wfs, env, AfterAll(db, ticks))
    decreases |ticks|
  {
    hide AllInOrder, CarefulRevision, Sound, SameReading, ApplyEvicting;
    if ticks != [] {
      CallKeepsOrder(env, db, ticks[0]);
      ApplySound(db, ticks[0].event, ticks[0].victims);
      RunsKeepOrder(env, wfs, AfterTick(db, ticks[0]), ticks[1..]);
    }
  }
}
