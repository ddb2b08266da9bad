/** In-line execution of MCP steps at the pointer: megalos_server/tools.py
    `_auto_execute_mcp_steps`. */
module InlineExecution {
  import opened Options
  import opened Workflows
  import opened References
  import opened McpArguments
  import opened Stepping

  /** Where the loop ended, the step data it built and the steps it executed, in order.
      `cascaded` is the skipped-predecessor error. */
  datatype AutoResult = AutoResult(at: StepId, data: StepData, executed: seq<StepId>, cascaded: bool)

  /** What follows an executed MCP step: its default branch when it has branches, else the next step. */
  function AfterMcp(wf: Workflow, i: nat): StepId
    requires i < |wf.steps|
  {
    var step := wf.steps[i];
    if step.branches != [] then
      (match step.defaultBranch
       case Some(d) => d
       case None => COMPLETE)
    else NextInOrder(wf, i)
  }

  function AutoRun(env: Env, wf: Workflow, pointer: StepId, data: StepData, executed: seq<StepId>): AutoResult
    requires UniqueIds(wf) && ForwardMcp(wf)
    decreases |wf.steps| - Position(wf, pointer)
  {
    var i := FindStep(wf, pointer);
    if pointer == COMPLETE || i < 0 || wf.steps[i].action.Llm? then AutoResult(pointer, data, executed, false)
    else
      var step := wf.steps[i];
      match ExecuteMcpStep(env, step.id, step.action.args, data, Elements(SkippedSteps(env, wf, data)))
      case None => AutoResult(pointer, data, executed, true)
      case Some(envelope) =>
        var data' := data[step.id := env.dumps(envelope)];
        var next := AfterMcp(wf, i);
        AfterMcpForward(wf, i);
        ApplySkipsForward(env, wf, data', next, false);
        match ApplySkips(env, wf, data', next, false)
        case Raised(_) => AutoResult(next, data', executed + [step.id], true)
        case At(q) => AutoRun(env, wf, q, data', executed + [step.id])
  }

  lemma AfterMcpForward(wf: Workflow, i: nat)
    requires UniqueIds(wf) && ForwardMcp(wf) && i < |wf.steps| && wf.steps[i].action.McpToolCall?
    ensures Position(wf, AfterMcp(wf, i)) > i
  {
    PositionOfIdAt(wf, i + 1);
  }

  lemma AfterMcpPointer(wf: Workflow, i: nat)
    requires UniqueIds(wf) && TargetsExist(wf) && i < |wf.steps|
    ensures Pointer(wf, AfterMcp(wf, i))
  {
    assert wf.steps[i] in wf.steps;
    PositionOfIdAt(wf, i + 1);
  }

  ghost predicate IncreasingPositions(wf: Workflow, ids: seq<StepId>) {
    && (forall k :: 0 <= k < |ids| ==> FindStep(wf, ids[k]) >= 0)
    && (forall k, m :: 0 <= k < m < |ids| ==> FindStep(wf, ids[k]) < FindStep(wf, ids[m]))
  }

  /** The executed steps are MCP steps from position `from` on, in workflow order, all before `to`. */
  ghost predicate ExecutedBetween(wf: Workflow, from: nat, to: nat, executed: seq<StepId>) {
    && IncreasingPositions(wf, executed)
    && forall k :: 0 <= k < |executed| ==>
         from <= FindStep(wf, executed[k]) < to && wf.steps[FindStep(wf, executed[k])].action.McpToolCall?
  }

  /** The data differs from the start exactly in the executed steps, which are all stored. */
  ghost predicate StoredExactly(start: StepData, data: StepData, executed: seq<StepId>) {
    && data.Keys == start.Keys + Elements(executed)
    && forall sid :: sid in start && sid !in executed ==> data[sid] == start[sid]
  }

  ghost predicate Executed(wf: Workflow, start: StepData, from: nat, r: AutoResult) {
    && ExecutedBetween(wf, from, Position(wf, r.at), r.executed)
    && StoredExactly(start, r.data, r.executed)
  }

  /** The loop ends; the executed steps are MCP steps at strictly increasing positions before
      where it stopped, each stored once and nothing else touched; and without a cascade it
      stopped at complete, at a non-MCP step, or at a pointer that names no step. */
  lemma {:induction false} AutoRunMeaning(env: Env, wf: Workflow, pointer: StepId, data: StepData, executed: seq<StepId>,
                                          start: StepData, from: nat)
    requires UniqueIds(wf) && ForwardMcp(wf)
    requires Executed(wf, start, from, AutoResult(pointer, data, executed, false)) && from <= Position(wf, pointer)
    ensures var r := AutoRun(env, wf, pointer, data, executed);
            && Executed(wf, start, from, r)
            && executed <= r.executed
            && Position(wf, r.at) >= Position(wf, pointer)
            && (!r.cascaded ==> r.at == COMPLETE || FindStep(wf, r.at) < 0 || wf.steps[FindStep(wf, r.at)].action.Llm?)
    decreases |wf.steps| - Position(wf, pointer)
  {
    hide Executed, ApplySkips, ExecuteMcpStep, SkippedSteps, AfterMcp;
    var i := FindStep(wf, pointer);
    EndedEitherWay(wf, start, from, pointer, data, executed);
    if pointer != COMPLETE && i >= 0 && wf.steps[i].action.McpToolCall? {
      var step := wf.steps[i];
      var e := ExecuteMcpStep(env, step.id, step.action.args, data, Elements(SkippedSteps(env, wf, data)));
      if e.Some? {
        var data' := data[step.id := env.dumps(e.value)];
        var next := AfterMcp(wf, i);
        AfterMcpForward(wf, i);
        ApplySkipsForward(env, wf, data', next, false);
        ExecutedSnoc(wf, start, from, AutoResult(pointer, data, executed, false), i, data', next);
        EndedEitherWay(wf, start, from, next, data', executed + [step.id]);
        var s := ApplySkips(env, wf, data', next, false);
        if s.At? {
          ExecutedSnoc(wf, start, from, AutoResult(pointer, data, executed, false), i, data', s.id);
          AutoRunMeaning(env, wf, s.id, data', executed + [step.id], start, from);
        }
      }
    }
  }

  lemma EndedEitherWay(wf: Workflow, start: StepData, from: nat, at: StepId, data: StepData, executed: seq<StepId>)
    ensures Executed(wf, start, from, AutoResult(at, data, executed, false)) ==> Executed(wf, start, from, AutoResult(at, data, executed, true))
  {
  }

  lemma BetweenSnoc(wf: Workflow, from: nat, i: nat, to: nat, ids: seq<StepId>, id: StepId)
    requires ExecutedBetween(wf, from, i, ids) && FindStep(wf, id) == i && from <= i < to && wf.steps[i].action.McpToolCall?
    ensures ExecutedBetween(wf, from, to, ids + [id])
  {
    forall k, m | 0 <= k < m < |ids + [id]| ensures FindStep(wf, (ids + [id])[k]) < FindStep(wf, (ids + [id])[m]) {
      assert (ids + [id])[k] == ids[k];
    }
  }

  lemma StoredSnoc(start: StepData, data: StepData, ids: seq<StepId>, id: StepId, data': StepData)
    requires StoredExactly(start, data, ids)
    requires data'.Keys == data.Keys + {id} && forall sid :: sid in data && sid != id ==> data'[sid] == data[sid]
    ensures StoredExactly(start, data', ids + [id])
  {
    assert forall y :: y in ids + [id] <==> y in ids || y == id;
    assert Elements(ids + [id]) == Elements(ids) + {id};
  }

  lemma ExecutedSnoc(wf: Workflow, start: StepData, from: nat, r: AutoResult, i: nat, data': StepData, next: StepId)
    requires Executed(wf, start, from, r) && FindStep(wf, r.at) == i && from <= i < |wf.steps|
    requires wf.steps[i].action.McpToolCall? && Position(wf, next) > i
    requires data'.Keys == r.data.Keys + {r.at} && forall sid :: sid in r.data && sid != r.at ==> data'[sid] == r.data[sid]
    ensures Executed(wf, start, from, AutoResult(next, data', r.executed + [r.at], r.cascaded))
  {
    BetweenSnoc(wf, from, i, Position(wf, next), r.executed, r.at);
    StoredSnoc(start, r.data, r.executed, r.at, data');
  }

  /** One call of the helper, from its own arguments. */
  lemma AutoRunFrom(env: Env, wf: Workflow, pointer: StepId, data: StepData)
    requires UniqueIds(wf) && ForwardMcp(wf)
    ensures var r := AutoRun(env, wf, pointer, data, []);
            && Executed(wf, data, Position(wf, pointer), r)
            && Position(wf, r.at) >= Position(wf, pointer)
            && (!r.cascaded ==> r.at == COMPLETE || FindStep(wf, r.at) < 0 || wf.steps[FindStep(wf, r.at)].action.Llm?)
  {
    assert Elements([]) == {};
    AutoRunMeaning(env, wf, pointer, data, [], data, Position(wf, pointer));
  }

  // --- What is stored ----------------------------------------------------------------------------

  /** The step data as it stood once the steps `ids` had run. */
  ghost function DataOnce(start: StepData, data: StepData, ids: seq<StepId>): StepData
    requires forall id :: id in ids ==> id in data
  {
    map sid | sid in start.Keys + Elements(ids) :: if sid in ids then data[sid] else start[sid]
  }

  /** The k-th executed step stored the printed envelope of its own execution, on the data and the
      skipped steps as they stood when it ran. */
  ghost predicate JustifiedAt(env: Env, wf: Workflow, start: StepData, data: StepData, executed: seq<StepId>, k: nat)
    requires k < |executed| && forall id :: id in executed ==> id in data
  {
    var i, before := FindStep(wf, executed[k]), DataOnce(start, data, executed[..k]);
    i >= 0 && wf.steps[i].action.McpToolCall?
    && var e := ExecuteMcpStep(env, executed[k], wf.steps[i].action.args, before, Elements(SkippedSteps(env, wf, before)));
       e.Some? && data[executed[k]] == env.dumps(e.value)
  }

  ghost predicate Justified(env: Env, wf: Workflow, start: StepData, data: StepData, executed: seq<StepId>) {
    && (forall id :: id in executed ==> id in data)
    && forall k :: 0 <= k < |executed| ==> JustifiedAt(env, wf, start, data, executed, k)
  }

  lemma StaysJustified(env: Env, wf: Workflow, start: StepData, data: StepData, executed: seq<StepId>, id: StepId, entry: string, k: nat)
    requires Justified(env, wf, start, data, executed) && id !in executed && k < |executed|
    ensures JustifiedAt(env, wf, start, data[id := entry], executed + [id], k)
  {
    hide ExecuteMcpStep, SkippedSteps, Elements;
    var data', ids := data[id := entry], executed + [id];
    assert JustifiedAt(env, wf, start, data, executed, k);
    assert ids[..k] == executed[..k] && ids[k] == executed[k] && executed[k] in executed;
    SameOnce(start, data, data', executed, k);
  }

  lemma SameOnce(start: StepData, data: StepData, data': StepData, executed: seq<StepId>, k: nat)
    requires k <= |executed| && forall id :: id in executed ==> id in data && id in data' && data'[id] == data[id]
    ensures DataOnce(start, data', executed[..k]) == DataOnce(start, data, executed[..k])
  {
    assert forall x :: x in executed[..k] ==> x in executed;
  }

  lemma AllOnce(start: StepData, data: StepData, data': StepData, executed: seq<StepId>)
    requires StoredExactly(start, data, executed) && forall id :: id in executed ==> id in data' && data'[id] == data[id]
    ensures DataOnce(start, data', executed) == data
  {
  }

  lemma JustifiedSnoc(env: Env, wf: Workflow, start: StepData, data: StepData, executed: seq<StepId>, i: nat)
    requires i < |wf.steps| && FindStep(wf, wf.steps[i].id) == i && wf.steps[i].action.McpToolCall?
    requires StoredExactly(start, data, executed) && Justified(env, wf, start, data, executed) && wf.steps[i].id !in executed
    requires ExecuteMcpStep(env, wf.steps[i].id, wf.steps[i].action.args, data, Elements(SkippedSteps(env, wf, data))).Some?
    ensures var e := ExecuteMcpStep(env, wf.steps[i].id, wf.steps[i].action.args, data, Elements(SkippedSteps(env, wf, data)));
            Justified(env, wf, start, data[wf.steps[i].id := env.dumps(e.value)], executed + [wf.steps[i].id])
  {
    hide ExecuteMcpStep, SkippedSteps, StoredExactly, Elements;
    var id := wf.steps[i].id;
    var e := ExecuteMcpStep(env, id, wf.steps[i].action.args, data, Elements(SkippedSteps(env, wf, data)));
    var data', ids := data[id := env.dumps(e.value)], executed + [id];
    AllOnce(start, data, data', executed);
    assert ids[..|executed|] == executed && ids[|executed|] == id;
    assert JustifiedAt(env, wf, start, data', ids, |executed|);
    forall k | 0 <= k < |executed| ensures JustifiedAt(env, wf, start, data', ids, k) {
      StaysJustified(env, wf, start, data, executed, id, env.dumps(e.value), k);
    }
  }

  lemma NotYetExecuted(wf: Workflow, from: nat, i: nat, executed: seq<StepId>)
    requires i < |wf.steps| && ExecutedBetween(wf, from, i, executed) && FindStep(wf, wf.steps[i].id) == i
    ensures wf.steps[i].id !in executed
  {
  }

  /** Every entry an MCP step leaves in the step data is the envelope of that step's own execution
      at its turn: no entry is made up, swapped or overwritten. */
  lemma {:induction false} AutoRunJustified(env: Env, wf: Workflow, pointer: StepId, data: StepData, executed: seq<StepId>,
                                            start: StepData, from: nat)
    requires UniqueIds(wf) && ForwardMcp(wf)
    requires Executed(wf, start, from, AutoResult(pointer, data, executed, false)) && from <= Position(wf, pointer)
    requires Justified(env, wf, start, data, executed)
    ensures var r := AutoRun(env, wf, pointer, data, executed); Justified(env, wf, start, r.data, r.executed)
    decreases |wf.steps| - Position(wf, pointer)
  {
    hide Justified, ApplySkips, ExecuteMcpStep, SkippedSteps, AfterMcp, ExecutedBetween, StoredExactly;
    var i := FindStep(wf, pointer);
    if pointer != COMPLETE && i >= 0 && wf.steps[i].action.McpToolCall? {
      var step := wf.steps[i];
      var e := ExecuteMcpStep(env, step.id, step.action.args, data, Elements(SkippedSteps(env, wf, data)));
      if e.Some? {
        var data' := data[step.id := env.dumps(e.value)];
        var next := AfterMcp(wf, i);
        AfterMcpForward(wf, i);
        ApplySkipsForward(env, wf, data', next, false);
        NotYetExecuted(wf, from, i, executed);
        JustifiedSnoc(env, wf, start, data, executed, i);
        var s := ApplySkips(env, wf, data', next, false);
        if s.At? {
          ExecutedSnoc(wf, start, from, AutoResult(pointer, data, executed, false), i, data', s.id);
          AutoRunJustified(env, wf, s.id, data', executed + [step.id], start, from);
        }
      }
    }
  }

  /** With existing targets the pointer stays a pointer: a step of the workflow or complete. */
  lemma {:induction false} AutoRunPointer(env: Env, wf: Workflow, pointer: StepId, data: StepData, executed: seq<StepId>)
    requires UniqueIds(wf) && ForwardMcp(wf) && TargetsExist(wf) && Pointer(wf, pointer)
    ensures Pointer(wf, AutoRun(env, wf, pointer, data, executed).at)
    decreases |wf.steps| - Position(wf, pointer)
  {
    hide ApplySkips, ExecuteMcpStep, SkippedSteps, AfterMcp;
    var i := FindStep(wf, pointer);
    if pointer != COMPLETE && i >= 0 && wf.steps[i].action.McpToolCall? {
      var step := wf.steps[i];
      var e := ExecuteMcpStep(env, step.id, step.action.args, data, Elements(SkippedSteps(env, wf, data)));
      if e.Some? {
        var data' := data[step.id := env.dumps(e.value)];
        var next := AfterMcp(wf, i);
        AfterMcpForward(wf, i);
        AfterMcpPointer(wf, i);
        ApplySkipsForward(env, wf, data', next, false);
        var s := ApplySkips(env, wf, data', next, false);
        if s.At? {
          AutoRunPointer(env, wf, s.id, data', executed + [step.id]);
        }
      }
    }
  }

  /** Each such entry prints the server's answer to the step's args with every ref replaced by what it
      held when the step ran, or the path to the first ref that held nothing. */
  lemma EntryMeans(env: Env, wf: Workflow, start: StepData, data: StepData, executed: seq<StepId>, k: nat) returns (e: Envelope)
    requires k < |executed| && (forall id :: id in executed ==> id in data) && JustifiedAt(env, wf, start, data, executed, k)
    ensures data[executed[k]] == env.dumps(e)
    ensures var args, before := wf.steps[FindStep(wf, executed[k])].action.args, DataOnce(start, data, executed[..k]);
            if Complete(env, args, before) then exists r :: Instance(env, args, r, before) && e == env.call(executed[k], r)
            else e.UnresolvedRef? && LeadsToAbsent(env, args, e.path, before)
  {
    hide ExecuteMcpStep, DataOnce, Instance, LeadsToAbsent, SkippedSteps;
    var args, before := wf.steps[FindStep(wf, executed[k])].action.args, DataOnce(start, data, executed[..k]);
    e := ExecuteMcpStep(env, executed[k], args, before, Elements(SkippedSteps(env, wf, before))).value;
    DispatchMeans(env, executed[k], args, before, Elements(SkippedSteps(env, wf, before)));
  }

  // --- Where the run goes --------------------------------------------------------------------------

  /** The steps executed so far are only carried along. */
  lemma {:induction false} ExecutedCarried(env: Env, wf: Workflow, pointer: StepId, data: StepData, executed: seq<StepId>)
    requires UniqueIds(wf) && ForwardMcp(wf)
    ensures var r, rest := AutoRun(env, wf, pointer, data, executed), AutoRun(env, wf, pointer, data, []);
            r == rest.(executed := executed + rest.executed)
    decreases |wf.steps| - Position(wf, pointer)
  {
    hide ApplySkips, ExecuteMcpStep, SkippedSteps, AfterMcp, UniqueIds, ForwardMcp;
    var i := FindStep(wf, pointer);
    assert executed + [] == executed;
    if pointer != COMPLETE && i >= 0 && wf.steps[i].action.McpToolCall? {
      var step := wf.steps[i];
      var e := ExecuteMcpStep(env, step.id, step.action.args, data, Elements(SkippedSteps(env, wf, data)));
      if e.Some? {
        var data' := data[step.id := env.dumps(e.value)];
        AfterMcpForward(wf, i);
        ApplySkipsForward(env, wf, data', AfterMcp(wf, i), false);
        var s := ApplySkips(env, wf, data', AfterMcp(wf, i), false);
        if s.At? {
          ExecutedCarried(env, wf, s.id, data', executed + [step.id]);
          ExecutedCarried(env, wf, s.id, data', [step.id]);
          var rest := AutoRun(env, wf, s.id, data', []).executed;
          assert executed + [step.id] + rest == executed + ([step.id] + rest);
        }
        assert [] + [step.id] == [step.id];
      }
    }
  }

  /** The pointer that follows an executed MCP step: its default branch if it has branches, completion
      if it has branches and no default, the next step in order otherwise. */
  ghost predicate Follows(wf: Workflow, i: nat, next: StepId)
    requires i < |wf.steps|
  {
    var step := wf.steps[i];
    if step.branches == [] then next == IdAt(wf, i + 1)
    else if step.defaultBranch.Some? then step.defaultBranch == Some(next)
    else next == COMPLETE
  }

  /** Where the skip loop, started at this pointer on this data, ends with q. */
  ghost predicate LeadsTo(env: Env, wf: Workflow, data: StepData, pointer: StepId, r: SkipResult) {
    var i := FindStep(wf, pointer);
    if i < 0 then r == At(pointer)
    else exists j :: EndsAt(env, wf, data, Elements(SkippedSteps(env, wf, data)), i, j, r)
  }

  lemma SkipsLead(env: Env, wf: Workflow, data: StepData, pointer: StepId)
    requires UniqueIds(wf)
    ensures LeadsTo(env, wf, data, pointer, ApplySkips(env, wf, data, pointer, false))
  {
    hide SkippedSteps, EndsAt;
    if FindStep(wf, pointer) >= 0 {
      NotSentinel(wf, pointer);
      var j := SkipLoopStops(env, wf, data, FindStep(wf, pointer));
    }
  }

  lemma NotSentinel(wf: Workflow, pointer: StepId)
    requires UniqueIds(wf) && FindStep(wf, pointer) >= 0
    ensures pointer != COMPLETE
  {
  }

  /** One turn of the run at an MCP step: a ref to a skipped step ends it where it is; otherwise the
      printed envelope is stored, and the run goes on from where the skip loop leads after the
      step, or ends with a cascade when that loop raises. */
  lemma AutoRunTurn(env: Env, wf: Workflow, i: nat, data: StepData) returns (next: StepId, s: SkipResult)
    requires UniqueIds(wf) && ForwardMcp(wf) && i < |wf.steps| && wf.steps[i].action.McpToolCall?
    ensures var step := wf.steps[i];
            var e := ExecuteMcpStep(env, step.id, step.action.args, data, Elements(SkippedSteps(env, wf, data)));
            var r := AutoRun(env, wf, step.id, data, []);
            if e.None? then r == AutoResult(step.id, data, [], true)
            else
              var data' := data[step.id := env.dumps(e.value)];
              && Follows(wf, i, next) && LeadsTo(env, wf, data', next, s)
              && r == if s.Raised? then AutoResult(next, data', [step.id], true)
                      else var rest := AutoRun(env, wf, s.id, data', []); rest.(executed := [step.id] + rest.executed)
  {
    hide ApplySkips, ExecuteMcpStep, SkippedSteps, LeadsTo;
    PositionOfIdAt(wf, i);
    next := AfterMcp(wf, i);
    var step := wf.steps[i];
    var e := ExecuteMcpStep(env, step.id, step.action.args, data, Elements(SkippedSteps(env, wf, data)));
    var data' := if e.Some? then data[step.id := env.dumps(e.value)] else data;
    s := ApplySkips(env, wf, data', next, false);
    SkipsLead(env, wf, data', next);
    assert [] + [step.id] == [step.id];
    if s.At? {
      ExecutedCarried(env, wf, s.id, data', [step.id]);
    }
  }
}
