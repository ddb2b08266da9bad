/** The documents and tables of the counterexamples, and the calls that reach them. */
module Scenarios {
  import opened Options
  import opened Workflows
  import opened References
  import opened McpArguments
  import opened Stepping
  import opened Tables
  import opened InlineExecution
  import opened ToolSpecs
  import opened StackSafety
  import opened Reaching

  // --- Documents ---------------------------------------------------------------------------------------------

  /** Surroundings in which MCP servers answer null and exactly the content "bad" breaks a schema. */
  const WORLD := Env(s => None, (x, y) => x == y, (schema, content) => content != "bad", (schema, content) => content != "bad",
                     (pattern, content) => false, (step, args) => Success(Null), envelope => "", wf => "", s => |s|)

  function Plain(id: StepId): Step {
    Step(id, Llm, None, None, None, [], None, None, false, DEFAULT_MAX_RETRIES, [], "")
  }

  function Calling(id: StepId, target: Name): Step {
    Plain(id).(call := Some(target))
  }

  /** A workflow of one step, and one that calls it before and after a step of its own. */
  const LEAF := Workflow("leaf", [Plain("a")], [])
  const CALLER := Workflow("caller", [Calling("c0", "leaf"), Plain("s1"), Calling("c2", "leaf")], [])
  const LIVE := Config(map["leaf" := LEAF, "caller" := CALLER], map["leaf" := "1", "caller" := "2"])

  /** Nothing but LLM steps, with or without calls, and unique ids. */
  ghost predicate Simple(wf: Workflow) {
    && |wf.steps| > 0 && UniqueIds(wf) && wf.guardrails == []
    && forall s :: s in wf.steps ==>
         s.action.Llm? && s.precondition.None? && s.branches == [] && s.defaultBranch.None? && s.artifacts == []
  }

  lemma SimpleIsWellFormed(wf: Workflow)
    requires Simple(wf)
    ensures WellFormedWorkflow(wf)
  {
    hide UniqueIds, FindStep;
    assert forall k :: 0 <= k < |wf.steps| ==> wf.steps[k] in wf.steps;
  }

  lemma LeafIsWellFormed()
    ensures WellFormedWorkflow(LEAF)
  {
    Ids();
    SimpleIsWellFormed(LEAF);
  }

  lemma CallerPositions()
    ensures FindStep(CALLER, "c0") == 0 && FindStep(CALLER, "s1") == 1 && FindStep(CALLER, "c2") == 2
  {
  }

  lemma CallerIds()
    ensures UniqueIds(CALLER)
  {
    assert CALLER.steps[0].id == "c0" && CALLER.steps[1].id == "s1" && CALLER.steps[2].id == "c2";
    assert "c0"[0] != "s1"[0] && "c0"[1] != "c2"[1] && "s1"[0] != "c2"[0];
    assert COMPLETE[0] == '_' && WORKFLOW_CHANGED[0] == '_';
  }

  lemma CallerIsWellFormed()
    ensures WellFormedWorkflow(CALLER)
  {
    hide UniqueIds, WellFormedWorkflow;
    CallerIds();
    SimpleIsWellFormed(CALLER);
  }

  lemma LiveDocuments()
    ensures WellFormedConfig(LIVE)
    ensures "leaf" in LIVE.workflows && LIVE.workflows["leaf"] == LEAF && "leaf" in LIVE.fingerprints && LIVE.fingerprints["leaf"] == "1"
    ensures "caller" in LIVE.workflows && LIVE.workflows["caller"] == CALLER && "caller" in LIVE.fingerprints && LIVE.fingerprints["caller"] == "2"
  {
    hide WellFormedWorkflow;
    assert "leaf"[0] != "caller"[0];
    CallerIsWellFormed();
    LeafIsWellFormed();
  }

  // --- Tables ------------------------------------------------------------------------------------------------

  function Leaf(parent: Option<Sid>): Session {
    NewSession("leaf", "a", parent, "1", 0).(visits := map["a" := 1])
  }

  function Caller(): Session {
    NewSession("caller", "c0", None, "2", 0).(visits := map["c0" := 1])
  }

  lemma Ids()
    ensures "a" != COMPLETE && "a" != WORKFLOW_CHANGED && "c0" != COMPLETE && "c0" != WORKFLOW_CHANGED
  {
    assert "a"[0] != COMPLETE[0] && "a"[0] != WORKFLOW_CHANGED[0] && "c0"[0] != COMPLETE[0] && "c0"[0] != WORKFLOW_CHANGED[0];
  }

  /** A root with a digression, and a digression on top of that. */
  const LEAF_ROOT := Db(map[0 := Leaf(None)], map[], 1)
  const DIGRESSED_ONCE := Db(map[0 := Leaf(None), 1 := Leaf(Some(0))], map[1 := Frame(0, 1, DigressionFrame, Some("a"))], 2)
  const DIGRESSED := Db(map[0 := Leaf(None), 1 := Leaf(Some(0)), 2 := Leaf(Some(1))],
                        map[1 := Frame(0, 1, DigressionFrame, Some("a")), 2 := Frame(0, 2, DigressionFrame, Some("a"))], 3)

  /** A caller with its call in flight, and a digression on top of that. */
  const CALLER_ROOT := Db(map[0 := Caller()], map[], 1)
  const ENTERED := Db(map[0 := Caller().(called := Some(1)), 1 := Leaf(Some(0))], map[1 := Frame(0, 1, CallFrame, Some("c0"))], 2)
  const CALLED := Db(map[0 := Caller().(called := Some(1)), 1 := Leaf(Some(0)), 2 := Leaf(Some(1))],
                     map[1 := Frame(0, 1, CallFrame, Some("c0")), 2 := Frame(0, 2, DigressionFrame, Some("a"))], 3)

  lemma RootsReached()
    ensures Reached(LEAF_ROOT) && Reached(CALLER_ROOT)
  {
    hide Reached, WellFormedConfig;
    EmptyIsReached();
    LiveDocuments();
    FewActive(EMPTY, {});
    StartReaches(LIVE, WORLD, EMPTY, "leaf", 0);
    StartReaches(LIVE, WORLD, EMPTY, "caller", 0);
    assert LEAF_ROOT == Db(EMPTY.sessions[0 := Fresh(LIVE, WORLD, "leaf", None, 0)], EMPTY.frames, 1);
    assert CALLER_ROOT == Db(EMPTY.sessions[0 := Fresh(LIVE, WORLD, "caller", None, 0)], EMPTY.frames, 1);
  }

  lemma NothingOnTop(db: Db, s: Sid)
    requires forall f :: f in db.frames ==> db.frames[f].depth != DepthOf(db, s) + 1
    ensures TopFrame(db, s) == None
  {
  }

  /** Pushing the one-step workflow above a session of it that has nothing above it. */
  lemma LeafPushed(db: Db, s: Sid, parent: Option<Sid>, ids: set<Sid>)
    requires Reached(db) && s in db.sessions && db.sessions[s] == Leaf(parent) && TopFrame(db, s) == None
    requires db.sessions.Keys <= ids && |ids| < 5 && |db.frames| < 3
    ensures Reached(Db(db.sessions[db.nextSid := Leaf(Some(s))],
                       db.frames[db.nextSid := Frame(RootOf(db, s), DepthOf(db, s) + 1, DigressionFrame, Some("a"))], db.nextSid + 1))
  {
    hide Reached, WellFormedConfig, TopFrame, CountActive, StackDepth, RootIn, DepthIn;
    LiveDocuments();
    Ids();
    FewActive(db, ids);
    FewFrames(db, RootOf(db, s), db.frames.Keys);
    assert |db.frames.Keys| == |db.frames|;
    assert Resolve(LIVE, db, s, 0) == Ready(db.sessions[s], LEAF);
    PushReaches(LIVE, WORLD, db, s, "leaf", "a", 0);
    assert Fresh(LIVE, WORLD, "leaf", Some(s), 0) == Leaf(Some(s));
  }

  lemma DigressedOnceReached()
    ensures Reached(DIGRESSED_ONCE)
  {
    hide Reached;
    RootsReached();
    NothingOnTop(LEAF_ROOT, 0);
    LeafPushed(LEAF_ROOT, 0, None, {0});
    assert DIGRESSED_ONCE == Db(LEAF_ROOT.sessions[1 := Leaf(Some(0))], LEAF_ROOT.frames[1 := Frame(0, 1, DigressionFrame, Some("a"))], 2);
  }

  lemma DigressedReached()
    ensures Reached(DIGRESSED)
  {
    hide Reached;
    DigressedOnceReached();
    NothingOnTop(DIGRESSED_ONCE, 1);
    LeafPushed(DIGRESSED_ONCE, 1, Some(0), {0, 1});
    assert DIGRESSED == Db(DIGRESSED_ONCE.sessions[2 := Leaf(Some(1))],
                           DIGRESSED_ONCE.frames[2 := Frame(0, 2, DigressionFrame, Some("a"))], 3);
  }

  lemma EnteredReached()
    ensures Reached(ENTERED)
  {
    hide Reached, WellFormedConfig;
    RootsReached();
    LiveDocuments();
    Ids();
    CallerPositions();
    NothingOnTop(CALLER_ROOT, 0);
    assert Resolve(LIVE, CALLER_ROOT, 0, 0) == Ready(Caller(), CALLER);
    EnterReaches(LIVE, WORLD, CALLER_ROOT, 0, "c0", "leaf", 0);
    assert Fresh(LIVE, WORLD, "leaf", Some(0), 0) == Leaf(Some(0));
    assert ENTERED.sessions == CALLER_ROOT.sessions[0 := Caller().(called := Some(1))][1 := Leaf(Some(0))];
  }

  lemma CalledReached()
    ensures Reached(CALLED)
  {
    hide Reached;
    EnteredReached();
    NothingOnTop(ENTERED, 1);
    LeafPushed(ENTERED, 1, Some(0), {0, 1});
    assert CALLED == Db(ENTERED.sessions[2 := Leaf(Some(1))], ENTERED.frames[2 := Frame(0, 2, DigressionFrame, Some("a"))], 3);
  }

  // --- A checked child that runs out of retries ------------------------------------------------------------------

  /** A workflow of one step with a schema and one try, and one that calls it. */
  const CHECKED := Workflow("checked", [Plain("a").(outputSchema := Some(Schema("schema")), maxRetries := 1)], [])
  const WATCHER := Workflow("watcher", [Calling("c0", "checked"), Plain("s1")], [])
  const STRICT := Config(map["checked" := CHECKED, "watcher" := WATCHER], map["checked" := "1", "watcher" := "2"])

  lemma WatcherSteps()
    ensures FindStep(WATCHER, "c0") == 0 && FindStep(WATCHER, "s1") == 1 && FindStep(CHECKED, "a") == 0
    ensures "s1" != COMPLETE && "s1" != WORKFLOW_CHANGED && "s1" != "c0" && "s1" != ""
  {
    assert "c0"[0] != "s1"[0] && "s1"[0] != COMPLETE[0] && "s1"[0] != WORKFLOW_CHANGED[0];
  }

  lemma CheckedIsWellFormed()
    ensures WellFormedWorkflow(CHECKED)
  {
    hide WellFormedWorkflow;
    Ids();
    SimpleIsWellFormed(CHECKED);
  }

  lemma WatcherIsWellFormed()
    ensures WellFormedWorkflow(WATCHER)
  {
    hide WellFormedWorkflow, FindStep;
    WatcherSteps();
    Ids();
    assert WATCHER.steps[0].id == "c0" && WATCHER.steps[1].id == "s1";
    SimpleIsWellFormed(WATCHER);
  }

  lemma StrictDocuments()
    ensures WellFormedConfig(STRICT)
    ensures "checked" in STRICT.workflows && STRICT.workflows["checked"] == CHECKED
    ensures "checked" in STRICT.fingerprints && STRICT.fingerprints["checked"] == "1"
    ensures "watcher" in STRICT.workflows && STRICT.workflows["watcher"] == WATCHER
    ensures "watcher" in STRICT.fingerprints && STRICT.fingerprints["watcher"] == "2"
  {
    hide WellFormedWorkflow;
    CheckedIsWellFormed();
    WatcherIsWellFormed();
    assert "checked"[0] != "watcher"[0];
  }

  function Checked(parent: Option<Sid>): Session {
    NewSession("checked", "a", parent, "1", 0).(visits := map["a" := 1])
  }

  function Watcher(): Session {
    NewSession("watcher", "c0", None, "2", 0).(visits := map["c0" := 1])
  }

  const WATCHER_ROOT := Db(map[0 := Watcher()], map[], 1)
  const WATCHED := Db(map[0 := Watcher().(called := Some(1)), 1 := Checked(Some(0))], map[1 := Frame(0, 1, CallFrame, Some("c0"))], 2)

  /** The caller is escalated by its child's last failure while the call is in flight. */
  const ESCALATED := Db(map[0 := Watcher().(called := Some(1), escalation := Some("called_workflow_failed")),
                            1 := Checked(Some(0)).(retries := map["a" := 1])],
                        map[1 := Frame(0, 1, CallFrame, Some("c0"))], 2)

  lemma WatchedReached()
    ensures Reached(WATCHED)
  {
    hide Reached, WellFormedConfig, WellFormedWorkflow;
    EmptyIsReached();
    StrictDocuments();
    WatcherSteps();
    Ids();
    FewActive(EMPTY, {});
    StartReaches(STRICT, WORLD, EMPTY, "watcher", 0);
    assert WATCHER_ROOT == Db(EMPTY.sessions[0 := Fresh(STRICT, WORLD, "watcher", None, 0)], EMPTY.frames, 1);
    NothingOnTop(WATCHER_ROOT, 0);
    assert Resolve(STRICT, WATCHER_ROOT, 0, 0) == Ready(Watcher(), WATCHER);
    EnterReaches(STRICT, WORLD, WATCHER_ROOT, 0, "c0", "checked", 0);
    assert Fresh(STRICT, WORLD, "checked", Some(0), 0) == Checked(Some(0));
    assert WATCHED.sessions == WATCHER_ROOT.sessions[0 := Watcher().(called := Some(1))][1 := Checked(Some(0))];
  }

  lemma ParentIsRoot(db: Db, c: Sid)
    requires c in db.frames && db.frames[c].depth == 1
    ensures ParentOf(db, c) == Some(db.frames[c].root)
  {
  }

  lemma LastTryFails()
    requires WellFormedConfig(STRICT)
    ensures SubmitStep(STRICT, WORLD, WATCHED, 1, "a", "bad", "", "", 0) == (ESCALATED, Error(SessionEscalated))
  {
    hide Commit, WellFormedConfig, WellFormedWorkflow, TopFrame;
    StrictDocuments();
    WatcherSteps();
    Ids();
    NothingOnTop(WATCHED, 1);
    assert Resolve(STRICT, WATCHED, 1, 0) == Ready(Checked(Some(0)), CHECKED);
    var retried := IncRetry(WATCHED, 1, "a", 0);
    ParentIsRoot(retried, 1);
    assert retried.sessions[0 := ESCALATED.sessions[0]] == ESCALATED.sessions;
  }

  lemma EscalatedReached()
    ensures Reached(ESCALATED)
  {
    hide Reached, WellFormedConfig, SubmitStep;
    WatchedReached();
    StrictDocuments();
    LastTryFails();
    CallReaches(WATCHED, Event(STRICT, WORLD, 0, Submit(1, "a", "bad", "", "")));
  }

  // --- Calls inside calls -----------------------------------------------------------------------------------------

  /** A workflow whose last step is a call, called by another. */
  const MID := Workflow("mid", [Calling("m0", "leaf")], [])
  const OUTER := Workflow("outer", [Calling("r0", "mid"), Plain("r1")], [])
  const NESTED := Config(map["leaf" := LEAF, "mid" := MID, "outer" := OUTER], map["leaf" := "1", "mid" := "2", "outer" := "3"])

  lemma NestedSteps()
    ensures FindStep(OUTER, "r0") == 0 && FindStep(MID, "m0") == 0 && FindStep(LEAF, "a") == 0
    ensures "r0" != COMPLETE && "r0" != WORKFLOW_CHANGED && "m0" != COMPLETE && "m0" != WORKFLOW_CHANGED
    ensures "r1" != COMPLETE && "r1" != WORKFLOW_CHANGED && "r1" != "r0"
  {
    assert "r0"[0] != COMPLETE[0] && "r0"[0] != WORKFLOW_CHANGED[0] && "m0"[0] != COMPLETE[0] && "m0"[0] != WORKFLOW_CHANGED[0];
    assert "r1"[0] != COMPLETE[0] && "r1"[0] != WORKFLOW_CHANGED[0] && "r1"[1] != "r0"[1];
  }

  lemma MidIsWellFormed()
    ensures WellFormedWorkflow(MID)
  {
    hide WellFormedWorkflow, FindStep;
    NestedSteps();
    assert MID.steps[0].id == "m0";
    SimpleIsWellFormed(MID);
  }

  lemma OuterIsWellFormed()
    ensures WellFormedWorkflow(OUTER)
  {
    hide WellFormedWorkflow, FindStep;
    NestedSteps();
    assert OUTER.steps[0].id == "r0" && OUTER.steps[1].id == "r1";
    SimpleIsWellFormed(OUTER);
  }

  lemma NestedDocuments()
    ensures WellFormedConfig(NESTED)
    ensures "leaf" in NESTED.workflows && NESTED.workflows["leaf"] == LEAF && "leaf" in NESTED.fingerprints && NESTED.fingerprints["leaf"] == "1"
    ensures "mid" in NESTED.workflows && NESTED.workflows["mid"] == MID && "mid" in NESTED.fingerprints && NESTED.fingerprints["mid"] == "2"
    ensures "outer" in NESTED.workflows && NESTED.workflows["outer"] == OUTER && "outer" in NESTED.fingerprints && NESTED.fingerprints["outer"] == "3"
  {
    hide WellFormedWorkflow;
    assert "leaf"[0] != "mid"[0] && "leaf"[0] != "outer"[0] && "mid"[0] != "outer"[0];
    MidIsWellFormed();
    OuterIsWellFormed();
    LeafIsWellFormed();
  }

  function Mid(): Session {
    NewSession("mid", "m0", Some(0), "2", 0).(visits := map["m0" := 1])
  }

  function Outer(): Session {
    NewSession("outer", "r0", None, "3", 0).(visits := map["r0" := 1])
  }

  const OUTER_ROOT := Db(map[0 := Outer()], map[], 1)
  const MID_ENTERED := Db(map[0 := Outer().(called := Some(1)), 1 := Mid()], map[1 := Frame(0, 1, CallFrame, Some("r0"))], 2)
  const THREE_DEEP := Db(map[0 := Outer().(called := Some(1)), 1 := Mid().(called := Some(2)), 2 := Leaf(Some(1))],
                         map[1 := Frame(0, 1, CallFrame, Some("r0")), 2 := Frame(0, 2, CallFrame, Some("m0"))], 3)

  lemma MidEnteredReached()
    ensures Reached(MID_ENTERED)
  {
    hide Reached, WellFormedConfig;
    EmptyIsReached();
    NestedDocuments();
    NestedSteps();
    FewActive(EMPTY, {});
    StartReaches(NESTED, WORLD, EMPTY, "outer", 0);
    assert OUTER_ROOT == Db(EMPTY.sessions[0 := Fresh(NESTED, WORLD, "outer", None, 0)], EMPTY.frames, 1);
    NothingOnTop(OUTER_ROOT, 0);
    assert Resolve(NESTED, OUTER_ROOT, 0, 0) == Ready(Outer(), OUTER);
    EnterReaches(NESTED, WORLD, OUTER_ROOT, 0, "r0", "mid", 0);
    assert Fresh(NESTED, WORLD, "mid", Some(0), 0) == Mid();
    assert MID_ENTERED.sessions == OUTER_ROOT.sessions[0 := Outer().(called := Some(1))][1 := Mid()];
  }

  lemma ThreeDeepReached()
    ensures Reached(THREE_DEEP)
  {
    hide Reached, WellFormedConfig;
    MidEnteredReached();
    NestedDocuments();
    NestedSteps();
    NothingOnTop(MID_ENTERED, 1);
    assert Resolve(NESTED, MID_ENTERED, 1, 0) == Ready(Mid(), MID);
    EnterReaches(NESTED, WORLD, MID_ENTERED, 1, "m0", "leaf", 0);
    assert Fresh(NESTED, WORLD, "leaf", Some(1), 0) == Leaf(Some(1));
    assert THREE_DEEP.sessions == MID_ENTERED.sessions[1 := Mid().(called := Some(2))][2 := Leaf(Some(1))];
    assert THREE_DEEP.frames == MID_ENTERED.frames[2 := Frame(0, 2, CallFrame, Some("m0"))];
  }

  // --- A step that refers to a skipped one ---------------------------------------------------------------------------

  /** Step q runs if p holds "x", step d runs if q was stored, and the call lies between them. */
  const PICKY := Workflow("picky",
                          [Plain("p"), Plain("q").(precondition := Some(WhenEquals(Ref("p", []), Str("x")))),
                           Calling("c", "leaf"), Plain("d").(precondition := Some(WhenPresent(Ref("q", []))))], [])
  const CHOOSY := Config(map["leaf" := LEAF, "picky" := PICKY], map["leaf" := "1", "picky" := "2"])

  lemma PickyIds()
    ensures "p" != "q" && "p" != "c" && "p" != "d" && "q" != "c" && "q" != "d" && "c" != "d"
    ensures forall id :: id in ["p", "q", "c", "d"] ==> id != COMPLETE && id != WORKFLOW_CHANGED && id != ""
  {
    assert "p"[0] != "q"[0] && "p"[0] != "c"[0] && "p"[0] != "d"[0] && "q"[0] != "c"[0] && "q"[0] != "d"[0] && "c"[0] != "d"[0];
    assert COMPLETE[0] == '_' && WORKFLOW_CHANGED[0] == '_';
  }

  lemma PickySteps()
    ensures PICKY.steps[0].id == "p" && PICKY.steps[1].id == "q" && PICKY.steps[2].id == "c" && PICKY.steps[3].id == "d"
    ensures FindStep(PICKY, "p") == 0 && FindStep(PICKY, "q") == 1 && FindStep(PICKY, "c") == 2 && FindStep(PICKY, "d") == 3
  {
    PickyIds();
  }

  lemma PickyUniqueIds()
    ensures UniqueIds(PICKY)
  {
    hide FindStep;
    PickyIds();
    PickySteps();
  }

  lemma PickyRefs()
    ensures BackwardRefs(PICKY)
  {
    hide FindStep;
    PickySteps();
  }

  lemma PickyIsWellFormed()
    ensures WellFormedWorkflow(PICKY)
  {
    hide FindStep, UniqueIds, BackwardRefs;
    PickySteps();
    PickyUniqueIds();
    PickyRefs();
  }

  lemma ChoosyDocuments()
    ensures WellFormedConfig(CHOOSY)
    ensures "leaf" in CHOOSY.workflows && CHOOSY.workflows["leaf"] == LEAF && "leaf" in CHOOSY.fingerprints && CHOOSY.fingerprints["leaf"] == "1"
    ensures "picky" in CHOOSY.workflows && CHOOSY.workflows["picky"] == PICKY && "picky" in CHOOSY.fingerprints && CHOOSY.fingerprints["picky"] == "2"
  {
    hide WellFormedWorkflow;
    assert "leaf"[0] != "picky"[0];
    PickyIsWellFormed();
    LeafIsWellFormed();
  }

  /** With "y" under p, q is skipped and d refers to it. */
  lemma PickySkips(data: StepData)
    requires "p" in data && data["p"] == "y" && "q" !in data && "d" !in data
    ensures SkippedSteps(WORLD, PICKY, data) == ["q", "d"]
    ensures Evaluate(WORLD, PICKY.steps[1].precondition.value, data, Elements(["q", "d"])) == Skips
  {
    hide FindStep;
    PickyIds();
    PickySteps();
    assert "y"[0] != "x"[0];
    assert SkippedUpTo(WORLD, PICKY, data, 1) == [];
    assert SkippedUpTo(WORLD, PICKY, data, 2) == ["q"];
    assert SkippedUpTo(WORLD, PICKY, data, 3) == ["q"];
    assert Evaluate(WORLD, PICKY.steps[3].precondition.value, data, Elements(["q"])) == Cascade by {
      assert "q" in Elements(["q"]);
    }
  }

  lemma MovesToCall()
    requires WellFormedWorkflow(PICKY)
    ensures Move(WORLD, PICKY, "q", map["p" := "y"], false) == Moved("c", map["p" := "y"], [])
  {
    hide FindStep, SkippedSteps, UniqueIds, BackwardRefs, TargetsExist, FieldRules, ForwardMcp;
    PickyIds();
    PickySteps();
    var data: StepData := map["p" := "y"];
    PickySkips(data);
    var skipped := Elements(["q", "d"]);
    assert PICKY.steps[2].precondition == None;
    assert SkipFrom(WORLD, PICKY, data, 2, skipped + {"q"}) == At("c");
    assert SkipFrom(WORLD, PICKY, data, 1, skipped) == At("c");
  }

  lemma BlocksAfterCall(content: string)
    requires WellFormedWorkflow(PICKY)
    ensures Move(WORLD, PICKY, "d", map["p" := "y", "c" := content], false) == Blocked
  {
    hide FindStep, SkippedSteps, UniqueIds, BackwardRefs, TargetsExist, FieldRules, ForwardMcp;
    PickyIds();
    PickySteps();
    var data: StepData := map["p" := "y", "c" := content];
    PickySkips(data);
    assert "q" in Elements(["q", "d"]);
  }

  function Picky(): Session {
    NewSession("picky", "p", None, "2", 0).(visits := map["p" := 1])
  }

  function Picked(): Session {
    Picky().(currentStep := "c", stepData := map["p" := "y"], visits := map["p" := 1, "c" := 1])
  }

  const PICKY_ROOT := Db(map[0 := Picky()], map[], 1)
  const PICKED := Db(map[0 := Picked()], map[], 1)
  const PICKY_CALLED := Db(map[0 := Picked().(called := Some(1)), 1 := Leaf(Some(0))], map[1 := Frame(0, 1, CallFrame, Some("c"))], 2)

  lemma PickyCommits()
    requires WellFormedWorkflow(PICKY) && WellFormedConfig(CHOOSY)
    ensures Commit(CHOOSY, WORLD, PICKY_ROOT, 0, Picky(), PICKY, 0, "y", "", 0).0 == PICKED
  {
    hide Move, WellFormedConfig, WellFormedWorkflow, FindStep, AutoResume, ParentOf;
    PickyIds();
    PickySteps();
    MovesToCall();
    assert NextInOrder(PICKY, 0) == "q";
    assert map[]["p" := "y"] == map["p" := "y"];
    assert map["p" := 1]["c" := 1] == map["p" := 1, "c" := 1];
  }

  lemma PickyMoves()
    requires WellFormedConfig(CHOOSY)
    ensures SubmitStep(CHOOSY, WORLD, PICKY_ROOT, 0, "p", "y", "", "", 0).0 == PICKED
  {
    hide Commit, WellFormedConfig, WellFormedWorkflow, TopFrame, FindStep;
    ChoosyDocuments();
    PickyIsWellFormed();
    PickyIds();
    PickySteps();
    NothingOnTop(PICKY_ROOT, 0);
    PickyCommits();
    assert Resolve(CHOOSY, PICKY_ROOT, 0, 0) == Ready(Picky(), PICKY);
  }

  lemma PickedReached()
    ensures Reached(PICKED)
  {
    hide Reached, WellFormedConfig, SubmitStep, FindStep;
    EmptyIsReached();
    ChoosyDocuments();
    PickyIds();
    PickySteps();
    FewActive(EMPTY, {});
    StartReaches(CHOOSY, WORLD, EMPTY, "picky", 0);
    assert PICKY_ROOT == Db(EMPTY.sessions[0 := Fresh(CHOOSY, WORLD, "picky", None, 0)], EMPTY.frames, 1);
    PickyMoves();
    CallReaches(PICKY_ROOT, Event(CHOOSY, WORLD, 0, Submit(0, "p", "y", "", "")));
  }

  lemma PickyCalledReached()
    ensures Reached(PICKY_CALLED)
  {
    hide Reached, WellFormedConfig, FindStep;
    PickedReached();
    ChoosyDocuments();
    PickyIds();
    PickySteps();
    NothingOnTop(PICKED, 0);
    assert Resolve(CHOOSY, PICKED, 0, 0) == Ready(Picked(), PICKY);
    EnterReaches(CHOOSY, WORLD, PICKED, 0, "c", "leaf", 0);
    assert Fresh(CHOOSY, WORLD, "leaf", Some(0), 0) == Leaf(Some(0));
    assert PICKY_CALLED.sessions == PICKED.sessions[0 := Picked().(called := Some(1))][1 := Leaf(Some(0))];
  }

  // --- An MCP step that may be gone back to ---------------------------------------------------------------------------

  /** Step m is executed in-line; submitted after a revision, it offers itself as a branch. */
  const REWORK := Workflow("rework",
                           [Plain("a"), Plain("m").(action := McpToolCall(ArgObject([])), branches := ["m", "s"], defaultBranch := Some("s")),
                            Plain("s")], [])
  const REWORKING := Config(map["rework" := REWORK], map["rework" := "1"])

  lemma ReworkIds()
    ensures "a" != "m" && "a" != "s" && "m" != "s"
    ensures forall id :: id in ["a", "m", "s"] ==> id != COMPLETE && id != WORKFLOW_CHANGED && id != ""
  {
    assert "a"[0] != "m"[0] && "a"[0] != "s"[0] && "m"[0] != "s"[0];
    assert COMPLETE[0] == '_' && WORKFLOW_CHANGED[0] == '_';
  }

  lemma ReworkSteps()
    ensures REWORK.steps[0].id == "a" && REWORK.steps[1].id == "m" && REWORK.steps[2].id == "s"
    ensures FindStep(REWORK, "a") == 0 && FindStep(REWORK, "m") == 1 && FindStep(REWORK, "s") == 2
  {
    ReworkIds();
  }

  lemma ReworkUniqueIds()
    ensures UniqueIds(REWORK)
  {
    hide FindStep;
    ReworkIds();
    ReworkSteps();
  }

  lemma ReworkIsWellFormed()
    ensures WellFormedWorkflow(REWORK)
  {
    hide FindStep, UniqueIds;
    ReworkSteps();
    ReworkUniqueIds();
  }

  lemma ReworkDocuments()
    ensures WellFormedConfig(REWORKING)
    ensures "rework" in REWORKING.workflows && REWORKING.workflows["rework"] == REWORK
    ensures "rework" in REWORKING.fingerprints && REWORKING.fingerprints["rework"] == "1"
  {
    hide WellFormedWorkflow;
    ReworkIsWellFormed();
  }

  lemma NothingSkipped(data: StepData)
    ensures SkippedSteps(WORLD, REWORK, data) == []
  {
    hide FindStep;
    assert SkippedUpTo(WORLD, REWORK, data, 1) == [];
    assert SkippedUpTo(WORLD, REWORK, data, 2) == [];
  }

  lemma Dispatched(id: StepId, data: StepData)
    ensures ExecuteMcpStep(WORLD, id, ArgObject([]), data, {}) == Some(Success(Null))
  {
  }

  /** From m the in-line run executes m and stops at s. */
  lemma ExecutesM(data: StepData)
    requires WellFormedWorkflow(REWORK)
    ensures Move(WORLD, REWORK, "m", data, false) == Moved("s", data["m" := ""], ["m"])
  {
    hide FindStep, SkippedSteps, ExecuteMcpStep, UniqueIds, BackwardRefs, TargetsExist, FieldRules, ForwardMcp;
    ReworkIds();
    ReworkSteps();
    NothingSkipped(data);
    NothingSkipped(data["m" := ""]);
    assert Elements([]) == {};
    Dispatched("m", data);
    assert ApplySkips(WORLD, REWORK, data, "m", false) == At("m");
    assert AfterMcp(REWORK, 1) == "s";
    assert ApplySkips(WORLD, REWORK, data["m" := ""], "s", false) == At("s");
    assert [] + ["m"] == ["m"];
    assert WORLD.dumps(Success(Null)) == "";
    assert AutoRun(WORLD, REWORK, "s", data["m" := ""], ["m"]) == AutoResult("s", data["m" := ""], ["m"], false);
    assert AutoRun(WORLD, REWORK, "m", data, []) == AutoResult("s", data["m" := ""], ["m"], false);
  }

  function Rework(): Session {
    NewSession("rework", "a", None, "1", 0).(visits := map["a" := 1])
  }

  function Executed(at: StepId): Session {
    Rework().(currentStep := at, stepData := map["a" := "x", "m" := ""], visits := map["a" := 1, "m" := 1, "s" := 1])
  }

  const REWORK_ROOT := Db(map[0 := Rework()], map[], 1)
  const AT_S := Db(map[0 := Executed("s")], map[], 1)
  const BACK_AT_M := Db(map[0 := Executed("m")], map[], 1)

  lemma FirstCommits()
    requires WellFormedWorkflow(REWORK) && WellFormedConfig(REWORKING)
    ensures Commit(REWORKING, WORLD, REWORK_ROOT, 0, Rework(), REWORK, 0, "x", "", 0).0 == AT_S
  {
    hide Move, WellFormedConfig, WellFormedWorkflow, FindStep, AutoResume, ParentOf;
    ReworkIds();
    ReworkSteps();
    ExecutesM(map["a" := "x"]);
    assert NextInOrder(REWORK, 0) == "m";
    assert map[]["a" := "x"] == map["a" := "x"];
    assert map["a" := "x"]["m" := ""] == map["a" := "x", "m" := ""];
    assert IncVisits(REWORK_ROOT, 0, ["m"], 0) == IncVisit(REWORK_ROOT, 0, "m", 0) by {
      assert ["m"][..0] == [];
    }
    assert map["a" := 1]["m" := 1]["s" := 1] == map["a" := 1, "m" := 1, "s" := 1];
  }

  lemma FirstSubmission()
    requires WellFormedConfig(REWORKING)
    ensures SubmitStep(REWORKING, WORLD, REWORK_ROOT, 0, "a", "x", "", "", 0).0 == AT_S
  {
    hide Commit, WellFormedConfig, WellFormedWorkflow, TopFrame, FindStep;
    ReworkDocuments();
    ReworkIsWellFormed();
    ReworkIds();
    ReworkSteps();
    NothingOnTop(REWORK_ROOT, 0);
    FirstCommits();
    assert Resolve(REWORKING, REWORK_ROOT, 0, 0) == Ready(Rework(), REWORK);
  }

  lemma RevisionToM()
    ensures ReviseStep(REWORKING, AT_S, 0, "m", 0).0 == BACK_AT_M
  {
    hide WellFormedConfig, TopFrame, FindStep;
    ReworkDocuments();
    ReworkIds();
    ReworkSteps();
    assert Resolve(REWORKING, AT_S, 0, 0) == Ready(Executed("s"), REWORK);
    assert StepsAfter(REWORK, 1) == {"s"};
    assert map["a" := "x", "m" := ""] - {"s"} == map["a" := "x", "m" := ""];
  }

  lemma AtSReached()
    ensures Reached(AT_S)
  {
    hide Reached, WellFormedConfig, SubmitStep, FindStep;
    EmptyIsReached();
    ReworkDocuments();
    ReworkIds();
    ReworkSteps();
    FewActive(EMPTY, {});
    StartReaches(REWORKING, WORLD, EMPTY, "rework", 0);
    assert REWORK_ROOT == Db(EMPTY.sessions[0 := Fresh(REWORKING, WORLD, "rework", None, 0)], EMPTY.frames, 1);
    FirstSubmission();
    CallReaches(REWORK_ROOT, Event(REWORKING, WORLD, 0, Submit(0, "a", "x", "", "")));
  }

  lemma BackAtMReached()
    ensures Reached(BACK_AT_M)
  {
    hide Reached, WellFormedConfig, ReviseStep, StackDepth;
    AtSReached();
    ReworkDocuments();
    RevisionToM();
    FewFrames(AT_S, 0, {});
    CallReaches(AT_S, Event(REWORKING, WORLD, 0, Revise(0, "m")));
  }

  // --- A completed session that is revised ------------------------------------------------------------------------

  function LeafDone(): Session {
    Leaf(None).(currentStep := COMPLETE, stepData := map["a" := "x"], updatedAt := 5, completedAt := Some(5))
  }

  function LaterLeaf(): Session {
    NewSession("leaf", "a", None, "1", 50).(visits := map["a" := 1])
  }

  /** One session completes at 5, another starts at 50, and at 100 the first is revised. */
  const DONE := Db(map[0 := LeafDone()], map[], 1)
  const DONE_AND_LATER := Db(map[0 := LeafDone(), 1 := LaterLeaf()], map[], 2)
  const REOPENED := Db(map[0 := LeafDone().(currentStep := "a", updatedAt := 100), 1 := LaterLeaf()], map[], 2)

  lemma LeafCompletes()
    requires WellFormedConfig(LIVE)
    ensures SubmitStep(LIVE, WORLD, LEAF_ROOT, 0, "a", "x", "", "", 5).0 == DONE
  {
    hide WellFormedConfig, WellFormedWorkflow, TopFrame, FindStep;
    LiveDocuments();
    LeafIsWellFormed();
    Ids();
    LeafSteps();
    NothingOnTop(LEAF_ROOT, 0);
    assert Resolve(LIVE, LEAF_ROOT, 0, 5) == Ready(Leaf(None), LEAF);
    assert map[]["a" := "x"] == map["a" := "x"];
    assert Move(WORLD, LEAF, COMPLETE, map["a" := "x"], false) == Moved(COMPLETE, map["a" := "x"], []);
  }

  lemma LeafSteps()
    ensures FindStep(LEAF, "a") == 0
  {
  }

  lemma LeafReopens()
    ensures ReviseStep(LIVE, DONE_AND_LATER, 0, "a", 100).0 == REOPENED
  {
    hide WellFormedConfig, TopFrame, FindStep;
    LiveDocuments();
    Ids();
    LeafSteps();
    assert COMPLETE != WORKFLOW_CHANGED by {
      assert |COMPLETE| != |WORKFLOW_CHANGED|;
    }
    assert Resolve(LIVE, DONE_AND_LATER, 0, 100) == Ready(LeafDone(), LEAF);
    assert StepsAfter(LEAF, 0) == {};
    assert map["a" := "x"] - {} == map["a" := "x"];
  }

  lemma ReopenedReached()
    ensures Reached(REOPENED)
  {
    hide Reached, WellFormedConfig, SubmitStep, ReviseStep, StackDepth;
    RootsReached();
    LiveDocuments();
    LeafCompletes();
    CallReaches(LEAF_ROOT, Event(LIVE, WORLD, 5, Submit(0, "a", "x", "", "")));
    FewActive(DONE, {0});
    StartReaches(LIVE, WORLD, DONE, "leaf", 50);
    assert DONE_AND_LATER == Db(DONE.sessions[1 := Fresh(LIVE, WORLD, "leaf", None, 50)], DONE.frames, 2);
    LeafReopens();
    FewFrames(DONE_AND_LATER, 0, {});
    CallReaches(DONE_AND_LATER, Event(LIVE, WORLD, 100, Revise(0, "a")));
  }
}
