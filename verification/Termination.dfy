/** When the engine's two loops end, on any document: the skip loop `_apply_skip_loop` and the
    in-line loop `_auto_execute_mcp_steps`, followed turn by turn, without the conditions under
    which Stepping and InlineExecution follow them as recursions. */
module Termination {
  import opened Options
  import opened Workflows
  import opened References
  import opened McpArguments
  import opened Sequences
  import opened Stepping
  import opened InlineExecution
  import opened CallGraph

  // --- The skip loop ------------------------------------------------------------------------------------

  /** The pointer and the skipped set after n turns, if the loop is still going. */
  function SkipTurns(env: Env, wf: Workflow, data: StepData, at: StepId, skipped: set<StepId>, n: nat): Option<(StepId, set<StepId>)>
    decreases n
  {
    if n == 0 then Some((at, skipped))
    else
      match SkipTurn(env, wf, data, at, skipped)
      case None => None
      case Some((q, skipped')) => SkipTurns(env, wf, data, q, skipped', n - 1)
  }

  /** With unique ids the turns are those of the recursion. */
  lemma SkipTurnIsSkip(env: Env, wf: Workflow, data: StepData, at: StepId, skipped: set<StepId>)
    requires UniqueIds(wf) && SkipTurn(env, wf, data, at, skipped).Some?
    ensures var (q, skipped') := SkipTurn(env, wf, data, at, skipped).value;
            SkipFrom(env, wf, data, Position(wf, at), skipped) == SkipFrom(env, wf, data, Position(wf, q), skipped')
  {
    PositionOfIdAt(wf, FindStep(wf, at) + 1);
  }

  lemma {:induction false} AnswerOrTurns(env: Env, wf: Workflow, data: StepData, at: StepId, skipped: set<StepId>, n: nat)
    ensures SkipAnswer(env, wf, data, at, skipped, n).None? <==> SkipTurns(env, wf, data, at, skipped, n + 1).Some?
    decreases n
  {
    hide SkipTurn;
    match SkipTurn(env, wf, data, at, skipped)
    case None =>
    case Some((q, skipped')) =>
      if n > 0 {
        AnswerOrTurns(env, wf, data, q, skipped', n - 1);
      }
  }

  lemma {:induction false} TurnsSplit(env: Env, wf: Workflow, data: StepData, at: StepId, skipped: set<StepId>, a: nat, b: nat)
    ensures var first := SkipTurns(env, wf, data, at, skipped, a);
            SkipTurns(env, wf, data, at, skipped, a + b) ==
            if first.None? then None else SkipTurns(env, wf, data, first.value.0, first.value.1, b)
    decreases a
  {
    hide SkipTurn;
    if a > 0 {
      match SkipTurn(env, wf, data, at, skipped)
      case None =>
      case Some((q, skipped')) => TurnsSplit(env, wf, data, q, skipped', a - 1, b);
    }
  }

  lemma TurnsBefore(env: Env, wf: Workflow, data: StepData, at: StepId, skipped: set<StepId>, n: nat, m: nat)
    requires SkipTurns(env, wf, data, at, skipped, n).Some? && m <= n
    ensures SkipTurns(env, wf, data, at, skipped, m).Some?
  {
    hide SkipTurns;
    TurnsSplit(env, wf, data, at, skipped, m, n - m);
  }

  /** A state that comes back comes back for ever. */
  lemma {:induction false} ReturningNeverEnds(env: Env, wf: Workflow, data: StepData, at: StepId, skipped: set<StepId>, period: nat, n: nat)
    requires period > 0 && SkipTurns(env, wf, data, at, skipped, period) == Some((at, skipped))
    ensures SkipTurns(env, wf, data, at, skipped, n).Some?
    decreases n
  {
    hide SkipTurns;
    if n <= period {
      TurnsBefore(env, wf, data, at, skipped, period, n);
    } else {
      ReturningNeverEnds(env, wf, data, at, skipped, period, n - period);
      TurnsSplit(env, wf, data, at, skipped, period, n - period);
    }
  }

  /** Where the loop stood before its k-th turn, for the pointers p of its turns. */
  ghost predicate StoodAt(env: Env, wf: Workflow, data: StepData, at: StepId, skipped: set<StepId>, p: seq<StepId>, k: nat)
    requires k < |p|
  {
    && SkipTurns(env, wf, data, at, skipped, k) == Some((p[k], skipped + Elements(p[..k])))
    && FindStep(wf, p[k]) >= 0
    && (k + 1 < |p| ==> p[k + 1] == NextInOrder(wf, FindStep(wf, p[k])))
  }

  lemma {:induction false} Pointers(env: Env, wf: Workflow, data: StepData, at: StepId, skipped: set<StepId>, n: nat) returns (p: seq<StepId>)
    requires SkipTurns(env, wf, data, at, skipped, n).Some?
    ensures |p| == n && forall k :: 0 <= k < n ==> StoodAt(env, wf, data, at, skipped, p, k)
    ensures n > 0 ==> p[0] == at
    decreases n
  {
    p := [];
    if n > 0 {
      var (q, skipped') := SkipTurn(env, wf, data, at, skipped).value;
      var rest := Pointers(env, wf, data, q, skipped', n - 1);
      p := [at] + rest;
      forall k | 0 <= k < n ensures StoodAt(env, wf, data, at, skipped, p, k) {
        if k > 0 {
          assert StoodAt(env, wf, data, q, skipped', rest, k - 1);
          assert p[..k] == [at] + rest[..k - 1];
          assert skipped + Elements(p[..k]) == skipped' + Elements(rest[..k - 1]);
        } else {
          assert skipped + Elements(p[..0]) == skipped;
        }
      }
    }
  }

  /** The next pointer depends on the pointer alone, so two equal pointers lead the same way. */
  lemma {:induction false} SameWay(env: Env, wf: Workflow, data: StepData, at: StepId, skipped: set<StepId>, p: seq<StepId>, i: nat, j: nat, t: nat)
    requires forall k :: 0 <= k < |p| ==> StoodAt(env, wf, data, at, skipped, p, k)
    requires i <= j && j + t < |p| && p[i] == p[j]
    ensures p[i + t] == p[j + t]
    decreases t
  {
    if t > 0 {
      SameWay(env, wf, data, at, skipped, p, i, j, t - 1);
      assert StoodAt(env, wf, data, at, skipped, p, i + t - 1) && StoodAt(env, wf, data, at, skipped, p, j + t - 1);
    }
  }

  ghost function Below(n: nat): (s: set<int>)
    ensures |s| == n && forall k :: k in s <==> 0 <= k < n
  {
    if n == 0 then {} else Below(n - 1) + {n - 1}
  }

  /** More places than there are positions: some position comes twice. */
  lemma Repeats(xs: seq<int>, n: nat) returns (i: nat, j: nat)
    requires |xs| > n && forall k :: 0 <= k < |xs| ==> 0 <= xs[k] < n
    ensures i < j < |xs| && xs[i] == xs[j]
  {
    if forall a, b :: 0 <= a < b < |xs| ==> xs[a] != xs[b] {
      DistinctCount(xs, Below(n));
      assert false;
    }
    i, j :| 0 <= i < j < |xs| && xs[i] == xs[j];
  }

  lemma PointerRepeats(env: Env, wf: Workflow, data: StepData, at: StepId, skipped: set<StepId>, p: seq<StepId>) returns (i: nat, j: nat)
    requires |p| > |wf.steps| && forall k :: 0 <= k < |p| ==> StoodAt(env, wf, data, at, skipped, p, k)
    ensures i < j <= |wf.steps| && p[i] == p[j]
  {
    hide SkipTurns;
    var xs := seq(|wf.steps| + 1, k requires 0 <= k < |p| => FindStep(wf, p[k]));
    forall k | 0 <= k < |xs| ensures 0 <= xs[k] < |wf.steps| {
      assert StoodAt(env, wf, data, at, skipped, p, k);
    }
    i, j := Repeats(xs, |wf.steps|);
  }

  /** Once the pointers go round, a whole round adds nothing to the skipped set. */
  lemma RoundAddsNothing(env: Env, wf: Workflow, data: StepData, at: StepId, skipped: set<StepId>, p: seq<StepId>, i: nat, j: nat)
    requires forall k :: 0 <= k < |p| ==> StoodAt(env, wf, data, at, skipped, p, k)
    requires i < j && j + (j - i) < |p| && p[i] == p[j]
    ensures p[j + (j - i)] == p[j] && Elements(p[..j + (j - i)]) == Elements(p[..j])
  {
    hide SkipTurns;
    SameWay(env, wf, data, at, skipped, p, i, j, j - i);
    forall x | x in p[..j + (j - i)] ensures x in p[..j] {
      var k :| 0 <= k < j + (j - i) && p[k] == x;
      if k >= j {
        SameWay(env, wf, data, at, skipped, p, i, j, k - j);
        assert p[..j][i + (k - j)] == x;
      } else {
        assert p[..j][k] == x;
      }
    }
    forall x | x in p[..j] ensures x in p[..j + (j - i)] {
      var k :| 0 <= k < j && p[k] == x;
      assert p[..j + (j - i)][k] == x;
    }
  }

  /** A skip loop still going after the limit never ends. */
  lemma PastTheLimit(env: Env, wf: Workflow, data: StepData, at: StepId, skipped: set<StepId>, n: nat)
    requires SkipTurns(env, wf, data, at, skipped, TurnLimit(wf) + 1).Some?
    ensures SkipTurns(env, wf, data, at, skipped, n).Some?
  {
    hide SkipTurns;
    var p := Pointers(env, wf, data, at, skipped, TurnLimit(wf) + 1);
    var i, j := PointerRepeats(env, wf, data, at, skipped, p);
    var period := j - i;
    RoundAddsNothing(env, wf, data, at, skipped, p, i, j);
    assert StoodAt(env, wf, data, at, skipped, p, j) && StoodAt(env, wf, data, at, skipped, p, j + period);
    var round := skipped + Elements(p[..j]);
    TurnsSplit(env, wf, data, at, skipped, j, period);
    if n <= j {
      TurnsBefore(env, wf, data, at, skipped, j, n);
    } else {
      ReturningNeverEnds(env, wf, data, p[j], round, period, n - j);
      TurnsSplit(env, wf, data, at, skipped, j, n - j);
    }
  }

  /** On every document, repeated ids included, the skip loop ends if and only if it ends within two
      turns for every step, and then with the one answer it has within any bound. */
  lemma SkipLoopEndsIff(env: Env, wf: Workflow, data: StepData, at: StepId, skipped: set<StepId>, n: nat)
    ensures SkipAnswer(env, wf, data, at, skipped, n).Some? ==>
              SkipAnswer(env, wf, data, at, skipped, TurnLimit(wf)) == SkipAnswer(env, wf, data, at, skipped, n)
  {
    hide SkipTurns, SkipAnswer, TurnLimit;
    if SkipAnswer(env, wf, data, at, skipped, n).Some? {
      AnswerOrTurns(env, wf, data, at, skipped, n);
      AnswerOrTurns(env, wf, data, at, skipped, TurnLimit(wf));
      if SkipAnswer(env, wf, data, at, skipped, TurnLimit(wf)).None? {
        PastTheLimit(env, wf, data, at, skipped, n + 1);
      } else {
        SameAnswer(env, wf, data, at, skipped, n, TurnLimit(wf));
      }
    }
  }

  lemma {:induction false} SameAnswer(env: Env, wf: Workflow, data: StepData, at: StepId, skipped: set<StepId>, a: nat, b: nat)
    requires SkipAnswer(env, wf, data, at, skipped, a).Some? && SkipAnswer(env, wf, data, at, skipped, b).Some?
    ensures SkipAnswer(env, wf, data, at, skipped, a) == SkipAnswer(env, wf, data, at, skipped, b)
    decreases a
  {
    hide SkipTurn;
    match SkipTurn(env, wf, data, at, skipped)
    case None =>
    case Some((q, skipped')) => SameAnswer(env, wf, data, q, skipped', a - 1, b - 1);
  }

  // --- The in-line loop ---------------------------------------------------------------------------------

  /** A pointer at which the in-line loop executes a step. */
  predicate IsMcp(wf: Workflow, id: StepId) {
    id != COMPLETE && FindStep(wf, id) >= 0 && wf.steps[FindStep(wf, id)].action.McpToolCall?
  }

  /** One turn of the in-line loop: the pointer and the data for the next turn, or none when the
      loop ends here. */
  function RunTurn(env: Env, wf: Workflow, at: StepId, data: StepData): Option<(StepId, StepData)> {
    if !IsMcp(wf, at) then None
    else
      var i := FindStep(wf, at);
      var step := wf.steps[i];
      match ExecuteMcpStep(env, step.id, step.action.args, data, Elements(SkippedSteps(env, wf, data)))
      case None => None
      case Some(envelope) =>
        var data' := data[step.id := env.dumps(envelope)];
        match ApplySkips(env, wf, data', AfterMcp(wf, i), false)
        case Raised(_) => None
        case At(q) => Some((q, data'))
  }

  /** The turns are those of the in-line run. */
  lemma RunTurnIsRun(env: Env, wf: Workflow, at: StepId, data: StepData, executed: seq<StepId>)
    requires UniqueIds(wf) && ForwardMcp(wf) && RunTurn(env, wf, at, data).Some?
    ensures var (q, data') := RunTurn(env, wf, at, data).value;
            AutoRun(env, wf, at, data, executed) == AutoRun(env, wf, q, data', executed + [at])
  {
  }

  /** The loop after n turns, if it is still going. */
  function RunTurns(env: Env, wf: Workflow, at: StepId, data: StepData, n: nat): Option<(StepId, StepData)>
    decreases n
  {
    if n == 0 then Some((at, data))
    else
      match RunTurn(env, wf, at, data)
      case None => None
      case Some((q, data')) => RunTurns(env, wf, q, data', n - 1)
  }

  ghost predicate RunEnds(env: Env, wf: Workflow, at: StepId, data: StepData) {
    exists n: nat :: RunTurns(env, wf, at, data, n).None?
  }

  function McpIds(wf: Workflow): set<StepId> {
    set k | 0 <= k < |wf.steps| && IsMcp(wf, wf.steps[k].id) :: wf.steps[k].id
  }

  /** The skip loop can come from position p to position k: every step between may be skipped. */
  predicate MayPass(wf: Workflow, p: nat, k: nat)
    requires p <= k < |wf.steps|
  {
    forall m :: p <= m < k ==> wf.steps[m].precondition.Some?
  }

  /** The document lets the loop go from MCP step a to step b. */
  predicate MayFollow(wf: Workflow, a: StepId, b: StepId)
    requires IsMcp(wf, a)
  {
    var next := AfterMcp(wf, FindStep(wf, a));
    next != COMPLETE && FindStep(wf, next) >= 0
    && exists k :: FindStep(wf, next) <= k < |wf.steps| && wf.steps[k].id == b && MayPass(wf, FindStep(wf, next), k)
  }

  /** The routing of the MCP steps of a document. */
  ghost function McpGraph(wf: Workflow): (g: Graph)
    ensures forall a :: a in g <==> a in McpIds(wf)
    ensures forall a, b :: Edge(g, a, b) <==> IsMcp(wf, a) && IsMcp(wf, b) && a in McpIds(wf) && b in McpIds(wf) && MayFollow(wf, a, b)
  {
    map a | a in McpIds(wf) :: set b | b in McpIds(wf) && MayFollow(wf, a, b)
  }

  lemma McpListed(wf: Workflow, id: StepId)
    ensures id in McpIds(wf) <==> IsMcp(wf, id)
  {
    if IsMcp(wf, id) {
      assert wf.steps[FindStep(wf, id)].id == id;
    }
  }

  /** Where the recursion of the skip loop ends. */
  lemma {:induction false} SkipFromLands(env: Env, wf: Workflow, data: StepData, i: nat, skipped: set<StepId>)
    requires i <= |wf.steps|
    ensures var r := SkipFrom(env, wf, data, i, skipped);
            r.At? && r.id != COMPLETE ==> exists k :: i <= k < |wf.steps| && wf.steps[k].id == r.id && MayPass(wf, i, k)
    decreases |wf.steps| - i
  {
    hide Evaluate;
    var r := SkipFrom(env, wf, data, i, skipped);
    if i < |wf.steps| && r.At? && r.id != COMPLETE {
      if wf.steps[i].precondition.Some? && Evaluate(env, wf.steps[i].precondition.value, data, skipped) == Skips {
        SkipFromLands(env, wf, data, i + 1, skipped + {wf.steps[i].id});
        var k :| i + 1 <= k < |wf.steps| && wf.steps[k].id == r.id && MayPass(wf, i + 1, k);
        assert MayPass(wf, i, k);
      } else {
        assert MayPass(wf, i, i);
      }
    }
  }

  lemma TurnIsEdge(env: Env, wf: Workflow, at: StepId, data: StepData)
    requires RunTurn(env, wf, at, data).Some? && IsMcp(wf, RunTurn(env, wf, at, data).value.0)
    ensures Edge(McpGraph(wf), at, RunTurn(env, wf, at, data).value.0)
  {
    hide ExecuteMcpStep, SkippedSteps, AfterMcp, McpIds, SkipFrom;
    var (q, data') := RunTurn(env, wf, at, data).value;
    var next := AfterMcp(wf, FindStep(wf, at));
    McpListed(wf, at);
    McpListed(wf, q);
    if next != COMPLETE && FindStep(wf, next) >= 0 {
      SkipFromLands(env, wf, data', FindStep(wf, next), Elements(SkippedSteps(env, wf, data')));
    }
  }

  /** The pointers of the turns are a walk in the routing. */
  lemma {:induction false} TurnsAreWalk(env: Env, wf: Workflow, at: StepId, data: StepData, n: nat) returns (p: seq<StepId>)
    requires RunTurns(env, wf, at, data, n).Some?
    ensures |p| == n && Walk(McpGraph(wf), p) && (n > 0 ==> p[0] == at) && forall id :: id in p ==> IsMcp(wf, id)
    decreases n
  {
    hide McpGraph, IsMcp, RunTurn, Edge;
    p := [];
    if n > 0 {
      var (q, data') := RunTurn(env, wf, at, data).value;
      TurnNeedsMcp(env, wf, at, data);
      var rest := TurnsAreWalk(env, wf, q, data', n - 1);
      p := [at] + rest;
      forall k | 0 < k < |p| ensures Link(McpGraph(wf), p, k) {
        if k == 1 {
          assert q in rest;
          TurnIsEdge(env, wf, at, data);
        } else {
          assert Link(McpGraph(wf), rest, k - 1);
        }
      }
    }
  }

  lemma TurnNeedsMcp(env: Env, wf: Workflow, at: StepId, data: StepData)
    ensures RunTurn(env, wf, at, data).Some? ==> IsMcp(wf, at)
  {
  }

  /** A walk that leads from this step into a cycle. */
  ghost predicate Lasso(wf: Workflow, at: StepId, w: seq<StepId>, i: nat) {
    |w| >= 2 && i < |w| - 1 && w[0] == at && w[i] == w[|w| - 1] && Walk(McpGraph(wf), w)
  }

  /** The routing leads from this step into a cycle of MCP steps. */
  ghost predicate Trapped(wf: Workflow, at: StepId) {
    exists w, i :: Lasso(wf, at, w, i)
  }

  lemma ManyTurnsTrap(env: Env, wf: Workflow, at: StepId, data: StepData)
    requires RunTurns(env, wf, at, data, |wf.steps| + 1).Some?
    ensures Trapped(wf, at)
  {
    hide RunTurns, McpGraph;
    var p := TurnsAreWalk(env, wf, at, data, |wf.steps| + 1);
    var xs := seq(|p|, k requires 0 <= k < |p| => FindStep(wf, p[k]));
    forall k | 0 <= k < |xs| ensures 0 <= xs[k] < |wf.steps| {
      assert p[k] in p;
    }
    var i, j := Repeats(xs, |wf.steps|);
    WalkPrefix(McpGraph(wf), p, j + 1);
    assert p[i] in p && p[j] in p;
    assert Lasso(wf, at, p[..j + 1], i);
  }

  /** On a document with unique ids, preconditions or not, whose routing leads from the pointer into
      no cycle, the in-line loop ends within one turn per step and one more, whatever the servers
      answer and whatever is stored. The ids are unique because only then ApplySkips, which a turn
      uses, is the skip loop. */
  lemma UntrappedEnds(env: Env, wf: Workflow, at: StepId, data: StepData)
    requires UniqueIds(wf) && !Trapped(wf, at)
    ensures RunTurns(env, wf, at, data, |wf.steps| + 1).None?
  {
    if RunTurns(env, wf, at, data, |wf.steps| + 1).Some? {
      ManyTurnsTrap(env, wf, at, data);
    }
  }

  // --- Documents without preconditions ------------------------------------------------------------------

  ghost predicate Unconditional(wf: Workflow) {
    forall k :: 0 <= k < |wf.steps| ==> wf.steps[k].precondition.None?
  }

  lemma {:induction false} NothingListed(env: Env, wf: Workflow, data: StepData, k: nat)
    requires Unconditional(wf) && k <= |wf.steps|
    ensures SkippedUpTo(env, wf, data, k) == []
  {
    if k > 0 {
      NothingListed(env, wf, data, k - 1);
    }
  }

  /** A turn never cascades and goes where the step's own routing says. */
  lemma UnconditionalTurn(env: Env, wf: Workflow, at: StepId, data: StepData)
    requires Unconditional(wf) && IsMcp(wf, at)
    ensures RunTurn(env, wf, at, data).Some? && RunTurn(env, wf, at, data).value.0 == AfterMcp(wf, FindStep(wf, at))
  {
    hide ExecuteMcpStep, AfterMcp, SkippedUpTo;
    var step := wf.steps[FindStep(wf, at)];
    NothingListed(env, wf, data, |wf.steps|);
    assert Elements([]) == {};
    DispatchDecided(env, step.id, step.action.args, data, {});
  }

  lemma UnconditionalEdge(wf: Workflow, a: StepId, b: StepId)
    requires Unconditional(wf) && Edge(McpGraph(wf), a, b)
    ensures IsMcp(wf, a) && b == AfterMcp(wf, FindStep(wf, a))
  {
    hide AfterMcp, McpIds;
    var next := AfterMcp(wf, FindStep(wf, a));
    var p := FindStep(wf, next);
    var k :| p <= k < |wf.steps| && wf.steps[k].id == b && MayPass(wf, p, k);
    assert wf.steps[p].precondition.None?;
  }

  lemma {:induction false} TrappedNeverEnds(env: Env, wf: Workflow, at: StepId, w: seq<StepId>, i: nat, k: nat, data: StepData, n: nat)
    requires Unconditional(wf) && Lasso(wf, at, w, i) && k < |w| - 1
    ensures RunTurns(env, wf, w[k], data, n).Some?
    decreases n
  {
    hide McpGraph, RunTurn, IsMcp, AfterMcp;
    if n > 0 {
      assert Link(McpGraph(wf), w, k + 1);
      UnconditionalEdge(wf, w[k], w[k + 1]);
      UnconditionalTurn(env, wf, w[k], data);
      TrappedNeverEnds(env, wf, at, w, i, if k + 1 == |w| - 1 then i else k + 1, RunTurn(env, wf, w[k], data).value.1, n - 1);
    }
  }

  /** On a document without preconditions the in-line loop ends from a pointer if and only if the
      routing leads from it into no cycle of MCP steps; repeated ids, servers and data play no part. */
  lemma RunEndsIff(env: Env, wf: Workflow, at: StepId, data: StepData)
    requires Unconditional(wf)
    ensures RunEnds(env, wf, at, data) <==> !Trapped(wf, at)
    ensures RunEnds(env, wf, at, data) ==> RunTurns(env, wf, at, data, |wf.steps| + 1).None?
  {
    hide RunTurns, Lasso;
    if Trapped(wf, at) {
      var w, i :| Lasso(wf, at, w, i);
      LassoStarts(wf, at, w, i);
      forall n: nat ensures RunTurns(env, wf, at, data, n).Some? {
        TrappedNeverEnds(env, wf, at, w, i, 0, data, n);
      }
    } else if RunTurns(env, wf, at, data, |wf.steps| + 1).Some? {
      ManyTurnsTrap(env, wf, at, data);
    }
  }

  lemma LassoStarts(wf: Workflow, at: StepId, w: seq<StepId>, i: nat)
    requires Lasso(wf, at, w, i)
    ensures |w| >= 2 && w[0] == at
  {
  }

  /** From every pointer and on all data, if and only if the routing of the MCP steps is acyclic. */
  lemma AllRunsEndIff(env: Env, wf: Workflow)
    requires Unconditional(wf)
    ensures (forall at, data :: RunEnds(env, wf, at, data)) <==> Acyclic(McpGraph(wf))
  {
    hide RunEnds, Unconditional, McpGraph, Acyclic, Trapped;
    NoneTrappedIff(wf);
    if Acyclic(McpGraph(wf)) {
      forall at, data ensures RunEnds(env, wf, at, data) {
        RunEndsIff(env, wf, at, data);
      }
    } else {
      var at :| Trapped(wf, at);
      RunEndsIff(env, wf, at, map[]);
    }
  }

  lemma NoneTrappedIff(wf: Workflow)
    ensures (forall at :: !Trapped(wf, at)) <==> Acyclic(McpGraph(wf))
  {
    hide McpGraph;
    forall p | ClosedWalk(McpGraph(wf), p) ensures Trapped(wf, p[0]) {
      assert Lasso(wf, p[0], p, 0);
    }
    forall at, w, i | Lasso(wf, at, w, i) ensures !Acyclic(McpGraph(wf)) {
      WalkSuffix(McpGraph(wf), w, i);
      assert ClosedWalk(McpGraph(wf), w[i..]);
    }
  }

  // --- Forward documents --------------------------------------------------------------------------------

  lemma ForwardEdge(wf: Workflow, a: StepId, b: StepId)
    requires UniqueIds(wf) && ForwardMcp(wf) && Edge(McpGraph(wf), a, b)
    ensures FindStep(wf, b) > FindStep(wf, a) >= 0
  {
    hide AfterMcp, McpIds;
    AfterMcpForward(wf, FindStep(wf, a));
    var p := FindStep(wf, AfterMcp(wf, FindStep(wf, a)));
    var k :| p <= k < |wf.steps| && wf.steps[k].id == b && MayPass(wf, p, k);
    PositionOfIdAt(wf, k);
  }

  lemma {:induction false} ForwardWalk(wf: Workflow, p: seq<StepId>, k: nat)
    requires UniqueIds(wf) && ForwardMcp(wf) && Walk(McpGraph(wf), p) && 0 < k < |p|
    ensures FindStep(wf, p[k]) > FindStep(wf, p[0])
    decreases k
  {
    hide McpGraph, UniqueIds, ForwardMcp;
    assert Link(McpGraph(wf), p, k);
    ForwardEdge(wf, p[k - 1], p[k]);
    if k > 1 {
      ForwardWalk(wf, p, k - 1);
    }
  }

  /** Documents whose MCP steps route forward only, which the engine's contracts ask for, have an
      acyclic routing. */
  lemma ForwardIsAcyclic(wf: Workflow)
    requires UniqueIds(wf) && ForwardMcp(wf)
    ensures Acyclic(McpGraph(wf))
  {
    hide McpGraph, UniqueIds, ForwardMcp;
    forall p ensures !ClosedWalk(McpGraph(wf), p) {
      if ClosedWalk(McpGraph(wf), p) {
        ForwardWalk(wf, p, |p| - 1);
      }
    }
  }
}
