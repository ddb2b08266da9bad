/** Concrete inputs on which the tools break what one would expect of them, each in tables that
    careful calls reach from empty ones. The exact conditions are in StackSafety, StoreMeaning,
    Progress, Escalation, Stranding and Contents. */
module Witnesses {
  import opened Options
  import opened Workflows
  import opened References
  import Stepping
  import opened Tables
  import opened StackView
  import opened ToolSpecs
  import opened StackSafety
  import opened StoreMeaning
  import opened Soundness
  import opened SessionMoves
  import opened Progress
  import opened Handovers
  import opened Escalation
  import opened Stranding
  import opened Reaching
  import opened Scenarios

  // --- Orphaned frames -----------------------------------------------------------------------------

  lemma TopsOfTwo(db: Db)
    requires db.frames.Keys == {1, 2}
    requires db.frames[1].root == 0 && db.frames[1].depth == 1 && db.frames[2].root == 0 && db.frames[2].depth == 2
    ensures TopFrame(db, 0) == Some(1) && TopFrame(db, 1) == Some(2) && ParentOf(db, 1) == Some(0)
  {
    assert IsTopFrame(db, 0, 1) && IsTopFrame(db, 1, 2);
  }

  /** pop_flow of a digression with another one on top is accepted and orphans the top one. */
  lemma PopUnderAFrame()
    ensures var (b, reply) := PopFlow(LIVE, DIGRESSED, 1, 0);
            Reached(DIGRESSED) && !reply.Error? && !WellFormed(b)
  {
    hide Reached, WellFormed, WellFormedConfig;
    DigressedReached();
    ReachedIsWellFormed(DIGRESSED);
    TopsOfTwo(DIGRESSED);
    LiveDocuments();
    Ids();
    PopKeepsWellFormedIff(LIVE, DIGRESSED, 1, 0);
  }

  /** delete_session of a root with frames above it is accepted and orphans them. */
  lemma DeleteUnderFrames()
    ensures var (b, reply) := DeleteTool(DIGRESSED, 0);
            Reached(DIGRESSED) && reply == Deleted(0) && !WellFormed(b)
  {
    hide Reached, WellFormed;
    DigressedReached();
    ReachedIsWellFormed(DIGRESSED);
    TopsOfTwo(DIGRESSED);
    DeleteKeepsWellFormedIff(DIGRESSED, 0);
  }

  /** revise_step of a call-step with two frames above removes only the lower one. */
  lemma ReviseUnderTwoFrames()
    ensures var (b, reply) := ReviseStep(LIVE, CALLED, 0, "c0", 0);
            Reached(CALLED) && reply == Revised(0, "c0") && !WellFormed(b)
  {
    hide Reached, WellFormed, WellFormedConfig, TopFrame, ReviseTo;
    CalledReached();
    ReachedIsWellFormed(CALLED);
    TopsOfTwo(CALLED);
    LiveDocuments();
    Ids();
    CallerPositions();
    ReviseKeepsWellFormedIff(LIVE, CALLED, 0, "c0", 0);
  }

  lemma DigressedCount()
    ensures |DIGRESSED.sessions| == 3
  {
    assert DIGRESSED.sessions.Keys == {0, 1, 2};
    assert |DIGRESSED.sessions| == |DIGRESSED.sessions.Keys|;
  }

  lemma RootMayGo()
    ensures Victims(DIGRESSED, 3, {0})
  {
    DigressedCount();
  }

  /** At a session cap of three the eviction may take the root and leave its frames. */
  lemma EvictionOfAParent()
    ensures Reached(DIGRESSED) && Victims(DIGRESSED, 3, {0}) && WellFormed(DIGRESSED)
    ensures !WellFormed(CreateRoot(DIGRESSED, {0}, "leaf", "a", "1", 1))
  {
    hide Reached, Sound, Issued, WellFormed, CreateRoot, Represents, Victims;
    DigressedReached();
    var v := ReachedIsGood(DIGRESSED);
    GoodIsSound(DIGRESSED, v);
    ReachedIsWellFormed(DIGRESSED);
    TopsOfTwo(DIGRESSED);
    RootMayGo();
    assert 1 in DIGRESSED.frames && 1 !in {0};
    RootCreationKeepsWellFormedIff(DIGRESSED, {0}, "leaf", "a", "1", 1);
  }

  /** At a session cap of two the eviction takes the session revised at 100, because it was complete at 5,
      and can only take it; the one untouched since 50 stays. */
  lemma EvictionOfTheRevised()
    ensures Reached(REOPENED) && Victims(REOPENED, 2, {0}) && !Victims(REOPENED, 2, {1})
    ensures !OpenByUpdate(REOPENED, {0}) && !CompletionsAgree(REOPENED)
    ensures REOPENED.sessions[0].updatedAt == 100 && REOPENED.sessions[1].updatedAt == 50
  {
    hide Reached;
    ReopenedReached();
    Ids();
    TwoSessions();
    assert EvictsBefore(REOPENED.sessions[0], REOPENED.sessions[1]);
    assert Open(REOPENED, 0) && Open(REOPENED, 1);
  }

  lemma TwoSessions()
    ensures |REOPENED.sessions| == 2
  {
    assert REOPENED.sessions.Keys == {0, 1};
    assert |REOPENED.sessions.Keys| == 2;
  }

  // --- A revision to a step never reached -------------------------------------------------------------

  /** revise_step to the second call-step, never reached, while the first call is in flight: it is
      accepted, and afterwards the first two steps are neither stored nor skipped. */
  lemma ReviseToUnreachedCall(env: Env)
    ensures var (b, reply) := ReviseStep(LIVE, ENTERED, 0, "c2", 0);
            && Reached(ENTERED) && Careful(ENTERED, Revise(0, "c2"))
            && InOrder(env, CALLER, ENTERED.sessions[0]) && reply == Revised(0, "c2")
            && 0 in b.sessions && !InOrder(env, CALLER, b.sessions[0])
  {
    hide Reached, InOrder, Settled, WellFormedConfig, StackDepth, TopFrame, ReviseStep;
    EnteredReached();
    LiveDocuments();
    Ids();
    CallerPositions();
    AtTheFirstCall(env);
    assert IsTopFrame(ENTERED, 0, 1);
    FewFrames(ENTERED, 0, {1});
    UnreachedTargetBreaksOrder(LIVE, env, ENTERED, 0, 2, 0);
    RevisionAnswers();
  }

  lemma RevisionAnswers()
    requires TopFrame(ENTERED, 0).Some?
    ensures ReviseStep(LIVE, ENTERED, 0, "c2", 0).1 == Revised(0, "c2")
  {
    hide ReviseTo, TopFrame, WellFormedConfig, FindStep;
    LiveDocuments();
    Ids();
    CallerPositions();
    assert Resolve(LIVE, ENTERED, 0, 0) == Ready(ENTERED.sessions[0], CALLER);
  }

  lemma AtTheFirstCall(env: Env)
    ensures InOrder(env, CALLER, ENTERED.sessions[0]) && !Settled(env, CALLER, ENTERED.sessions[0].stepData, 0)
  {
    CallerPositions();
    NothingSkipped(env, 3);
  }

  lemma {:induction false} NothingSkipped(env: Env, k: nat)
    requires k <= 3
    ensures Stepping.SkippedUpTo(env, CALLER, map[], k) == []
  {
    if k > 0 {
      NothingSkipped(env, k - 1);
    }
  }

  // --- An escalated caller --------------------------------------------------------------------------------

  lemma ChildFinishes(content: string)
    requires WellFormedConfig(STRICT) && WellFormedWorkflow(CHECKED)
    ensures Move(WORLD, CHECKED, COMPLETE, map["a" := content], false) == Moved(COMPLETE, map["a" := content], [])
  {
    hide WellFormedWorkflow;
    Ids();
  }

  lemma CallerMoves(data: StepData)
    requires WellFormedWorkflow(WATCHER)
    ensures Move(WORLD, WATCHER, "s1", data, false) == Moved("s1", data, [])
  {
    hide UniqueIds, BackwardRefs, TargetsExist, FieldRules, ForwardMcp, FindStep;
    WatcherSteps();
  }

  /** A caller escalated by its child's failure is moved on by the child's next submission, and stays
      escalated. */
  lemma EscalatedCallerGoesOn()
    ensures WellFormedConfig(STRICT)
    ensures var (b, reply) := SubmitStep(STRICT, WORLD, ESCALATED, 1, "a", "good", "", "", 0);
            && Reached(ESCALATED) && ESCALATED.sessions[0].escalation.Some? && reply == Advanced(0, "s1", None, true)
            && 0 in b.sessions && b.sessions[0].currentStep == "s1" && b.sessions[0].escalation.Some?
  {
    hide Commit, WellFormedConfig, WellFormedWorkflow, TopFrame, Reached;
    EscalatedReached();
    CheckedIsWellFormed();
    StrictDocuments();
    WatcherSteps();
    Ids();
    assert "good"[0] != "bad"[0];
    NothingOnTop(ESCALATED, 1);
    assert Resolve(STRICT, ESCALATED, 1, 0) == Ready(ESCALATED.sessions[1], CHECKED);
    ChildCommits();
  }

  lemma ChildCommits()
    requires WellFormedConfig(STRICT) && WellFormedWorkflow(CHECKED)
    ensures var (b, reply) := Commit(STRICT, WORLD, ESCALATED, 1, ESCALATED.sessions[1], CHECKED, 0, "good", "", 0);
            && reply == Advanced(0, "s1", None, true)
            && 0 in b.sessions && b.sessions[0].currentStep == "s1" && b.sessions[0].escalation.Some?
  {
    hide Move, AutoResume, WellFormedWorkflow, WellFormedConfig, ParentOf;
    var data: StepData := map["a" := "good"];
    assert map[]["a" := "good"] == data;
    ChildFinishes("good");
    ChildCompleted(data);
    HandsOver(WriteMovement(ESCALATED, 1, Moved(COMPLETE, data, []), 0));
  }

  lemma ChildCompleted(data: StepData)
    ensures var db1 := WriteMovement(ESCALATED, 1, Moved(COMPLETE, data, []), 0);
            && db1.frames == ESCALATED.frames && 0 in db1.sessions && db1.sessions[0] == ESCALATED.sessions[0] && 1 in db1.sessions
            && ParentOf(db1, 1) == Some(0)
  {
  }

  lemma HandsOver(db1: Db)
    requires WellFormedConfig(STRICT) && db1.frames == ESCALATED.frames && 1 in db1.sessions
    requires 0 in db1.sessions && db1.sessions[0] == ESCALATED.sessions[0]
    ensures var (b, reply) := AutoResume(STRICT, WORLD, db1, 1, 0, CHECKED, map["a" := "good"], 0);
            && reply == Advanced(0, "s1", None, true)
            && 0 in b.sessions && b.sessions[0].currentStep == "s1" && b.sessions[0].escalation.Some?
  {
    hide Move, WellFormedWorkflow, WellFormedConfig, FindStep;
    StrictDocuments();
    WatcherIsWellFormed();
    WatcherSteps();
    Ids();
    CallerMoves(map["c0" := "good"]);
    assert ESCALATED.sessions[0].stepData["c0" := "good"] == map["c0" := "good"];
  }

  // --- Completion goes up one level ----------------------------------------------------------------------------

  lemma LeafFinishes(parent: Option<Sid>, content: string)
    requires WellFormedWorkflow(LEAF)
    ensures OwnMove(WORLD, Leaf(parent), LEAF, 0, content, "") == Some(Moved(COMPLETE, map["a" := content], []))
  {
    hide WellFormedWorkflow;
    Ids();
    assert map[]["a" := content] == map["a" := content];
  }

  lemma MidFinishes(data: StepData)
    requires WellFormedWorkflow(MID)
    ensures Move(WORLD, MID, COMPLETE, data, false) == Moved(COMPLETE, data, [])
  {
    hide WellFormedWorkflow;
    NestedSteps();
  }

  /** The last submission of a leaf called by the last step of a called session is answered with the
      completion of that session, which stays framed, while the root stands at its call-step. */
  lemma CompletionStopsHalfWay()
    ensures WellFormedConfig(NESTED)
    ensures var (b, reply) := SubmitStep(NESTED, WORLD, THREE_DEEP, 2, "a", "x", "", "", 0);
            && Reached(THREE_DEEP) && reply == Finished(1, true)
            && Stranded(b, 1, 0) && b.sessions[1].currentStep == COMPLETE && b.sessions[0].currentStep == "r0"
  {
    hide Reached, SubmitStep, WellFormedConfig, Strands, ParentMove, FinishOf, ParentOf;
    NestedDocuments();
    ThreeDeepReached();
    var v := ReachedIsGood(THREE_DEEP);
    ThreeDeepParents();
    LeafHandsOver();
    var e := Event(NESTED, WORLD, 0, Submit(2, "a", "x", "", ""));
    CompletionIsStrandedIff(THREE_DEEP, v, e);
    RootRests();
  }

  lemma ThreeDeepParents()
    ensures ParentOf(THREE_DEEP, 2) == Some(1) && ParentOf(THREE_DEEP, 1) == Some(0) && TopFrame(THREE_DEEP, 2) == None
  {
    NothingOnTop(THREE_DEEP, 2);
    ParentIsRoot(THREE_DEEP, 1);
    assert FrameAt(THREE_DEEP, 1, 0, 1);
  }

  lemma LeafFinishOf()
    requires WellFormedConfig(NESTED)
    ensures FinishOf(NESTED, WORLD, THREE_DEEP, 2, "a", "x", "", "", 0) == Some(Finish(LEAF, map["a" := "x"]))
  {
    hide WellFormedConfig, WellFormedWorkflow, TopFrame, OwnMove;
    LeafIsWellFormed();
    NestedDocuments();
    NestedSteps();
    Ids();
    ThreeDeepParents();
    LeafFinishes(Some(1), "x");
    assert Resolve(NESTED, THREE_DEEP, 2, 0) == Ready(Leaf(Some(1)), LEAF);
  }

  lemma LeafHandsOver()
    requires WellFormedConfig(NESTED)
    ensures Strands(NESTED, WORLD, THREE_DEEP, 2, "a", "x", "", "", 0)
  {
    hide WellFormedConfig, WellFormedWorkflow, ParentOf, FinishOf, Move;
    LeafFinishOf();
    NestedDocuments();
    NestedSteps();
    ThreeDeepParents();
    MidIsWellFormed();
    LeafIsWellFormed();
    MidFinishes(map["m0" := "x"]);
    assert map[]["m0" := "x"] == map["m0" := "x"];
    assert Resolve(NESTED, THREE_DEEP, 1, 0) == Ready(THREE_DEEP.sessions[1], MID);
  }

  lemma RootRests()
    requires WellFormedConfig(NESTED)
    ensures var b := SubmitStep(NESTED, WORLD, THREE_DEEP, 2, "a", "x", "", "", 0).0;
            0 in b.sessions ==> b.sessions[0].currentStep == "r0"
  {
    hide SubmitStep, WellFormedConfig, ParentOf;
    NestedDocuments();
    ThreeDeepParents();
    SubmitPair(NESTED, WORLD, THREE_DEEP, 2, "a", "x", "", "", 0);
  }

  // --- A hand-over whose skip loop raises ----------------------------------------------------------------------

  lemma PickyLeafFinishOf()
    requires WellFormedConfig(CHOOSY)
    ensures FinishOf(CHOOSY, WORLD, PICKY_CALLED, 1, "a", "z", "", "", 0) == Some(Finish(LEAF, map["a" := "z"]))
  {
    hide WellFormedConfig, WellFormedWorkflow, TopFrame, OwnMove;
    LeafIsWellFormed();
    ChoosyDocuments();
    NestedSteps();
    Ids();
    NothingOnTop(PICKY_CALLED, 1);
    LeafFinishes(Some(0), "z");
    assert Resolve(CHOOSY, PICKY_CALLED, 1, 0) == Ready(Leaf(Some(0)), LEAF);
  }

  lemma PickyParentMove()
    requires WellFormedConfig(CHOOSY)
    ensures ParentMove(CHOOSY, WORLD, PICKY_CALLED, 1, 0, FinishOf(CHOOSY, WORLD, PICKY_CALLED, 1, "a", "z", "", "", 0), 0) == Some(Blocked)
  {
    hide WellFormedConfig, WellFormedWorkflow, FinishOf, Move, FindStep;
    PickyLeafFinishOf();
    ChoosyDocuments();
    PickyIds();
    PickySteps();
    NestedSteps();
    PickyIsWellFormed();
    LeafIsWellFormed();
    BlocksAfterCall("z");
    assert map["p" := "y"]["c" := "z"] == map["p" := "y", "c" := "z"];
    assert Resolve(CHOOSY, PICKY_CALLED, 0, 0) == Ready(PICKY_CALLED.sessions[0], PICKY);
  }

  /** The last submission of a called leaf is accepted from it, and lost: the leaf is gone, and the
      caller's call-step still holds nothing, because the step behind it refers to a skipped one. */
  lemma HandoverLosesArtifact()
    ensures WellFormedConfig(CHOOSY)
    ensures var (b, reply) := SubmitStep(CHOOSY, WORLD, PICKY_CALLED, 1, "a", "z", "", "", 0);
            && Reached(PICKY_CALLED) && reply == Error(SkippedPredecessor)
            && 1 !in b.sessions && 0 in b.sessions
            && b.sessions[0].currentStep == "c" && "c" !in b.sessions[0].stepData
  {
    hide Reached, SubmitStep, WellFormedConfig, ParentMove, FinishOf, ParentOf;
    ChoosyDocuments();
    PickyCalledReached();
    PickyIds();
    ParentIsRoot(PICKY_CALLED, 1);
    PickyParentMove();
    SubmitOutcome(CHOOSY, WORLD, PICKY_CALLED, 1, 0, "a", "z", "", "", 0);
  }

  // --- A submission the in-line run overwrites -----------------------------------------------------------------

  lemma OverwritingCommit()
    requires WellFormedWorkflow(REWORK) && WellFormedConfig(REWORKING)
    ensures var (b, reply) := Commit(REWORKING, WORLD, BACK_AT_M, 0, Executed("m"), REWORK, 1, "mine", "m", 0);
            && reply == Advanced(0, "s", None, false)
            && 0 in b.sessions && "m" in b.sessions[0].stepData && b.sessions[0].stepData["m"] == ""
  {
    hide Move, WriteMovement, WellFormedConfig, WellFormedWorkflow, FindStep, AutoResume, ParentOf;
    ReworkIds();
    ReworkSteps();
    var data := Executed("m").stepData["m" := "mine"];
    ExecutesM(data);
    MovementWrites(BACK_AT_M, 0, Moved("s", data["m" := ""], ["m"]), 0);
  }

  /** After a revision of an MCP step, content submitted for it with the branch back to it is accepted,
      and the envelope of its next execution is stored in its place. */
  lemma SubmissionOverwritten()
    ensures WellFormedConfig(REWORKING)
    ensures var (b, reply) := SubmitStep(REWORKING, WORLD, BACK_AT_M, 0, "m", "mine", "m", "", 0);
            && Reached(BACK_AT_M) && reply == Advanced(0, "s", None, false)
            && 0 in b.sessions && "m" in b.sessions[0].stepData && b.sessions[0].stepData["m"] == ""
  {
    hide Commit, WellFormedConfig, WellFormedWorkflow, TopFrame, FindStep, Reached;
    BackAtMReached();
    ReworkDocuments();
    ReworkIsWellFormed();
    ReworkIds();
    ReworkSteps();
    NothingOnTop(BACK_AT_M, 0);
    OverwritingCommit();
    assert Resolve(REWORKING, BACK_AT_M, 0, 0) == Ready(Executed("m"), REWORK);
  }
}
