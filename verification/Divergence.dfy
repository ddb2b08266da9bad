/** Documents the loader accepts on which the engine's two loops never end: an MCP step that is its
    own default branch, and a skipped step whose id is repeated. */
module Divergence {
  import opened Options
  import opened Workflows
  import opened References
  import opened Stepping
  import opened Validators
  import opened Termination

  // --- The in-line run ---------------------------------------------------------------------------------

  /** An MCP step that names itself as its default branch. */
  const LOOPING := Workflow("looping", [Step("m", McpToolCall(ArgObject([])), None, None, None, ["m"], Some("m"), None, false, DEFAULT_MAX_RETRIES, [], "")], [])

  /** From it the in-line loop goes on for any number of turns, whatever the server answers. */
  lemma {:induction false} LoopNeverEnds(env: Env, data: StepData, n: nat)
    ensures RunTurns(env, LOOPING, "m", data, n).Some? && RunTurns(env, LOOPING, "m", data, n).value.0 == "m"
    decreases n
  {
    if n > 0 {
      LoopTurns(env, data);
      LoopNeverEnds(env, RunTurn(env, LOOPING, "m", data).value.1, n - 1);
    }
  }

  lemma LoopTurns(env: Env, data: StepData)
    ensures RunTurn(env, LOOPING, "m", data).Some? && RunTurn(env, LOOPING, "m", data).value.0 == "m"
  {
    assert "m"[0] != COMPLETE[0];
    assert FindStep(LOOPING, "m") == 0;
  }

  // --- The skip loop -------------------------------------------------------------------------------------

  const ONLY_ON_GO := Step("y", Llm, Some(WhenEquals(Ref("p", []), Str("go"))), None, None, [], None, None, false, DEFAULT_MAX_RETRIES, [], "")

  /** A step after which the same id comes twice, both times to run only if the first holds "go". */
  const REPEATING := Workflow("repeating",
                              [ONLY_ON_GO.(id := "p", precondition := None), ONLY_ON_GO, ONLY_ON_GO], [])

  /** When the first step holds anything else the skip loop goes from y to y for any number of turns. */
  lemma {:induction false} SkipNeverEnds(env: Env, data: StepData, skipped: set<StepId>, n: nat)
    requires "p" in data && !env.equal(Str(data["p"]), Str("go")) && "p" !in skipped
    ensures SkipTurns(env, REPEATING, data, "y", skipped, n).Some? && SkipTurns(env, REPEATING, data, "y", skipped, n).value.0 == "y"
    decreases n
  {
    if n > 0 {
      SkipStays(env, data, skipped);
      SkipNeverEnds(env, data, skipped + {"y"}, n - 1);
    }
  }

  lemma SkipStays(env: Env, data: StepData, skipped: set<StepId>)
    requires "p" in data && !env.equal(Str(data["p"]), Str("go")) && "p" !in skipped
    ensures SkipTurn(env, REPEATING, data, "y", skipped) == Some(("y", skipped + {"y"})) && "p" !in skipped + {"y"}
  {
    assert "p"[0] != "y"[0] && "y"[0] != COMPLETE[0];
    assert REPEATING.steps[0].id == "p" && REPEATING.steps[1].id == "y" && REPEATING.steps[2].id == "y";
    assert FindStep(REPEATING, "y") == 1;
  }

  // --- The loader accepts both ------------------------------------------------------------------------------

  /** What the loader checks of a document: references between steps, the rules for fields. */
  ghost predicate Loadable(wf: Workflow) {
    |wf.steps| > 0 && TargetsExist(wf) && FieldRules(wf) && forall k :: 0 <= k < |wf.steps| ==> ErrorAt(wf, k) == None
  }

  lemma LoopingLoads()
    ensures Loadable(LOOPING) && !ForwardMcp(LOOPING)
  {
    assert FindStep(LOOPING, "m") == 0;
  }

  lemma RepeatingLoads()
    ensures Loadable(REPEATING) && !UniqueIds(REPEATING)
  {
    hide LastStep, FindStep;
    assert REPEATING.steps[0].id == "p" && REPEATING.steps[1].id == "y" && REPEATING.steps[2].id == "y";
    assert "p"[0] != "y"[0];
    assert LastStep(REPEATING, "p") == 0;
  }
}
