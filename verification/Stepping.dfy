/** Deciding which step comes next: precondition skipping and in-line MCP execution
    (megalos_server/tools.py lines 65-244). */
module Stepping {
  import opened Options
  import opened Workflows
  import opened References

  /** Run the step, skip it, or a reference to a skipped predecessor. */
  datatype Verdict = Runs | Skips | Cascade

  /** `_evaluate_precondition` */
  function Evaluate(env: Env, pc: Precondition, data: StepData, skipped: set<StepId>): Verdict {
    match pc
    case WhenEquals(ref, expected) =>
      (match ResolveRef(env, ref, data, skipped)
       case Skipped => Cascade
       case Absent => Skips
       case Found(v) => if env.equal(v, expected) then Runs else Skips)
    case WhenPresent(ref) =>
      if ref.sid in skipped then Cascade else if ref.sid in data then Runs else Skips
  }

  /** What a precondition asks of the step data: a value that equals the expected one, or an entry. */
  ghost predicate Met(env: Env, pc: Precondition, data: StepData) {
    match pc
    case WhenEquals(ref, expected) => exists v :: Holds(env, data, ref, v) && env.equal(v, expected)
    case WhenPresent(ref) => ref.sid in data
  }

  /** A step cascades exactly on a ref to a skipped step, and otherwise runs exactly when its
      precondition is met. */
  lemma VerdictMeans(env: Env, pc: Precondition, data: StepData, skipped: set<StepId>)
    ensures Evaluate(env, pc, data, skipped) ==
            if pc.ref.sid in skipped then Cascade else if Met(env, pc, data) then Runs else Skips
  {
    hide ResolveRef, Holds;
    ResolveFinds(env, pc.ref, data, skipped);
    if pc.WhenEquals? && pc.ref.sid in skipped {
      ResolveMeans(env, pc.ref, data, skipped, Null);
    } else if pc.WhenEquals? {
      ResolveMeans(env, pc.ref, data, skipped, Null);
      var r := ResolveRef(env, pc.ref, data, skipped);
      if r.Found? {
        assert Holds(env, data, pc.ref, r.value);
      }
    }
  }

  function Elements(xs: seq<StepId>): (s: set<StepId>)
    ensures forall x :: x in s <==> x in xs
  {
    set x | x in xs
  }

  /** Step k, met with this list of earlier skipped steps, is listed too. */
  predicate ListedAfter(env: Env, step: Step, data: StepData, skipped: seq<StepId>) {
    step.id !in data && step.precondition.Some?
    && Evaluate(env, step.precondition.value, data, Elements(skipped)) != Runs
  }

  function SkippedUpTo(env: Env, wf: Workflow, data: StepData, k: nat): seq<StepId>
    requires k <= |wf.steps|
  {
    if k == 0 then []
    else
      var before := SkippedUpTo(env, wf, data, k - 1);
      if ListedAfter(env, wf.steps[k - 1], data, before) then before + [wf.steps[k - 1].id] else before
  }

  /** The list `_compute_skipped_steps` reports. */
  function SkippedSteps(env: Env, wf: Workflow, data: StepData): seq<StepId> {
    SkippedUpTo(env, wf, data, |wf.steps|)
  }

  method ComputeSkippedSteps(env: Env, wf: Workflow, data: StepData) returns (skipped: seq<StepId>)
    ensures skipped == SkippedSteps(env, wf, data)
  {
    skipped := [];
    var k := 0;
    while k < |wf.steps|
      invariant 0 <= k <= |wf.steps|
      invariant skipped == SkippedUpTo(env, wf, data, k)
    {
      var step := wf.steps[k];
      k := k + 1;
      if step.id in data || step.precondition.None? {
        continue;
      }
      var verdict := Evaluate(env, step.precondition.value, data, Elements(skipped));
      if verdict != Runs {
        skipped := skipped + [step.id];
      }
    }
  }

  // --- What the list means --------------------------------------------------------

  lemma {:induction false} SkippedUpToMembers(env: Env, wf: Workflow, data: StepData, k: nat, sid: StepId)
    requires UniqueIds(wf) && k <= |wf.steps|
    ensures sid in SkippedUpTo(env, wf, data, k) ==> 0 <= FindStep(wf, sid) < k
    ensures forall j :: 0 <= j < k && wf.steps[j].id == sid ==>
              (sid in SkippedUpTo(env, wf, data, k) <==> ListedAfter(env, wf.steps[j], data, SkippedUpTo(env, wf, data, j)))
  {
    if k > 0 {
      SkippedUpToMembers(env, wf, data, k - 1, sid);
    }
  }

  lemma EvaluateDependsOnRef(env: Env, pc: Precondition, data: StepData, a: set<StepId>, b: set<StepId>)
    requires pc.ref.sid in a <==> pc.ref.sid in b
    ensures Evaluate(env, pc, data, a) == Evaluate(env, pc, data, b)
  {
  }

  /** The list solves its own equation: a step is listed exactly when it is not stored and its
      precondition, judged against the whole list, does not run. */
  lemma SkippedIsFixpoint(env: Env, wf: Workflow, data: StepData, j: nat)
    requires UniqueIds(wf) && BackwardRefs(wf) && j < |wf.steps|
    ensures wf.steps[j].id in SkippedSteps(env, wf, data) <==>
            ListedAfter(env, wf.steps[j], data, SkippedSteps(env, wf, data))
  {
    var step := wf.steps[j];
    SkippedUpToMembers(env, wf, data, |wf.steps|, step.id);
    if step.precondition.Some? {
      var sid := step.precondition.value.ref.sid;
      SkippedUpToMembers(env, wf, data, |wf.steps|, sid);
      SkippedUpToMembers(env, wf, data, j, sid);
      EvaluateDependsOnRef(env, step.precondition.value, data,
                           Elements(SkippedUpTo(env, wf, data, j)), Elements(SkippedSteps(env, wf, data)));
    }
  }

  /** In terms of the step data: a step is listed exactly when it is not stored and has a
      precondition that names a listed step or is not met. */
  lemma SkippedMeans(env: Env, wf: Workflow, data: StepData, j: nat)
    requires UniqueIds(wf) && BackwardRefs(wf) && j < |wf.steps|
    ensures var step, listed := wf.steps[j], SkippedSteps(env, wf, data);
            step.id in listed <==>
              && step.id !in data && step.precondition.Some?
              && (step.precondition.value.ref.sid in listed || !Met(env, step.precondition.value, data))
  {
    hide Evaluate, Met, SkippedSteps, UniqueIds, BackwardRefs;
    SkippedIsFixpoint(env, wf, data, j);
    if wf.steps[j].precondition.Some? {
      VerdictMeans(env, wf.steps[j].precondition.value, data, Elements(SkippedSteps(env, wf, data)));
    }
  }

  /** ... and it is the only list of step ids that does. */
  lemma {:induction false} FixpointUnique(env: Env, wf: Workflow, data: StepData, other: seq<StepId>, k: nat)
    requires UniqueIds(wf) && BackwardRefs(wf) && k <= |wf.steps|
    requires forall sid :: sid in other ==> FindStep(wf, sid) >= 0
    requires forall j :: 0 <= j < |wf.steps| ==>
               (wf.steps[j].id in other <==> ListedAfter(env, wf.steps[j], data, other))
    ensures forall j :: 0 <= j < k ==> (wf.steps[j].id in other <==> wf.steps[j].id in SkippedSteps(env, wf, data))
  {
    hide Evaluate;
    if k > 0 {
      FixpointUnique(env, wf, data, other, k - 1);
      SkippedIsFixpoint(env, wf, data, k - 1);
      var step := wf.steps[k - 1];
      if step.precondition.Some? {
        var sid := step.precondition.value.ref.sid;
        SkippedUpToMembers(env, wf, data, |wf.steps|, sid);
        var i := FindStep(wf, sid);
        assert i >= 0 ==> wf.steps[i].id == sid && i < k - 1;
        EvaluateDependsOnRef(env, step.precondition.value, data, Elements(other), Elements(SkippedSteps(env, wf, data)));
      }
    }
  }

  // --- The skip loop ----------------------------------------------------------------

  /** At(id), or a cascade at the step whose precondition names a skipped step. */
  datatype SkipResult = At(id: StepId) | Raised(referencing: StepId)

  function SkipFrom(env: Env, wf: Workflow, data: StepData, i: nat, skipped: set<StepId>): SkipResult
    requires i <= |wf.steps|
    decreases |wf.steps| - i
  {
    if i == |wf.steps| then At(COMPLETE)
    else if wf.steps[i].precondition.None? then At(wf.steps[i].id)
    else
      match Evaluate(env, wf.steps[i].precondition.value, data, skipped)
      case Runs => At(wf.steps[i].id)
      case Cascade => Raised(wf.steps[i].id)
      case Skips => SkipFrom(env, wf, data, i + 1, skipped + {wf.steps[i].id})
  }

  /** `_apply_skip_loop` as a function of its arguments. */
  function ApplySkips(env: Env, wf: Workflow, data: StepData, pointer: StepId, forceBranched: bool): SkipResult {
    if forceBranched || pointer == COMPLETE || FindStep(wf, pointer) < 0 then At(pointer)
    else SkipFrom(env, wf, data, FindStep(wf, pointer), Elements(SkippedSteps(env, wf, data)))
  }

  function NextInOrder(wf: Workflow, i: nat): StepId
    requires i < |wf.steps|
  {
    if i == |wf.steps| - 1 then COMPLETE else wf.steps[i + 1].id
  }

  /** One turn of the loop of `_apply_skip_loop`: the pointer and the skipped set for the next turn,
      or none when the loop ends here. */
  function SkipTurn(env: Env, wf: Workflow, data: StepData, at: StepId, skipped: set<StepId>): Option<(StepId, set<StepId>)> {
    var i := FindStep(wf, at);
    if at == COMPLETE || i < 0 || wf.steps[i].precondition.None? then None
    else if Evaluate(env, wf.steps[i].precondition.value, data, skipped) != Skips then None
    else Some((NextInOrder(wf, i), skipped + {at}))
  }

  /** What the loop answers where it ends. */
  function SkipStop(env: Env, wf: Workflow, data: StepData, at: StepId, skipped: set<StepId>): SkipResult {
    var i := FindStep(wf, at);
    if at != COMPLETE && i >= 0 && wf.steps[i].precondition.Some?
       && Evaluate(env, wf.steps[i].precondition.value, data, skipped) == Cascade then Raised(at)
    else At(at)
  }

  /** The answer of the loop if it ends within n turns. */
  function SkipAnswer(env: Env, wf: Workflow, data: StepData, at: StepId, skipped: set<StepId>, n: nat): Option<SkipResult>
    decreases n
  {
    match SkipTurn(env, wf, data, at, skipped)
    case None => Some(SkipStop(env, wf, data, at, skipped))
    case Some((q, skipped')) => if n == 0 then None else SkipAnswer(env, wf, data, q, skipped', n - 1)
  }

  /** The turns after which a loop that is still going never ends; Termination proves it. */
  function TurnLimit(wf: Workflow): nat {
    2 * |wf.steps|
  }

  /** The same helper on any document, repeated ids included. The source's loop never ends on some
      of them, and then there is no answer to give. */
  function SkipOutcome(env: Env, wf: Workflow, data: StepData, pointer: StepId, forceBranched: bool): Option<SkipResult> {
    if forceBranched then Some(At(pointer))
    else SkipAnswer(env, wf, data, pointer, Elements(SkippedSteps(env, wf, data)), TurnLimit(wf))
  }

  method ApplySkipLoop(env: Env, wf: Workflow, data: StepData, pointer: StepId, forceBranched: bool)
      returns (result: SkipResult)
    requires SkipOutcome(env, wf, data, pointer, forceBranched).Some?
    ensures Some(result) == SkipOutcome(env, wf, data, pointer, forceBranched)
    ensures UniqueIds(wf) ==> result == ApplySkips(env, wf, data, pointer, forceBranched)
  {
    hide Evaluate, SkippedSteps, ApplySkips, UniqueIds;
    if UniqueIds(wf) {
      SkipLoopEnds(env, wf, data, pointer, forceBranched);
    }
    if forceBranched {
      return At(pointer);
    }
    var listed := ComputeSkippedSteps(env, wf, data);
    var skipped := Elements(listed);
    var next := pointer;
    ghost var n := TurnLimit(wf);
    while next != COMPLETE
      invariant SkipAnswer(env, wf, data, next, skipped, n).Some?
      invariant SkipAnswer(env, wf, data, next, skipped, n) == SkipOutcome(env, wf, data, pointer, false)
      decreases n
    {
      var idx := FindStep(wf, next);
      if idx < 0 || wf.steps[idx].precondition.None? {
        return At(next);
      }
      match Evaluate(env, wf.steps[idx].precondition.value, data, skipped) {
        case Runs => return At(next);
        case Cascade => return Raised(next);
        case Skips =>
      }
      skipped := skipped + {next};
      next := NextInOrder(wf, idx);
      n := n - 1;
    }
    return At(COMPLETE);
  }

  /** With unique ids the turns are the steps of SkipFrom, and each goes one position on. */
  lemma {:induction false} SkipAnswers(env: Env, wf: Workflow, data: StepData, i: nat, skipped: set<StepId>, n: nat)
    requires UniqueIds(wf) && i <= |wf.steps| <= i + n
    ensures SkipAnswer(env, wf, data, IdAt(wf, i), skipped, n) == Some(SkipFrom(env, wf, data, i, skipped))
    decreases n
  {
    hide Evaluate;
    PositionOfIdAt(wf, i);
    if i < |wf.steps| && wf.steps[i].precondition.Some? && Evaluate(env, wf.steps[i].precondition.value, data, skipped) == Skips {
      SkipAnswers(env, wf, data, i + 1, skipped + {wf.steps[i].id}, n - 1);
    }
  }

  /** With unique ids the loop ends on every input. */
  lemma SkipLoopEnds(env: Env, wf: Workflow, data: StepData, pointer: StepId, forceBranched: bool)
    requires UniqueIds(wf)
    ensures SkipOutcome(env, wf, data, pointer, forceBranched) == Some(ApplySkips(env, wf, data, pointer, forceBranched))
  {
    if !forceBranched && pointer != COMPLETE && FindStep(wf, pointer) >= 0 {
      SkipAnswers(env, wf, data, FindStep(wf, pointer), Elements(SkippedSteps(env, wf, data)), TurnLimit(wf));
    }
  }

  /** A precondition that names a listed step. */
  predicate RefersTo(step: Step, listed: seq<StepId>) {
    step.precondition.Some? && step.precondition.value.ref.sid in listed
  }

  lemma CascadeIsReference(env: Env, pc: Precondition, data: StepData, skipped: set<StepId>)
    ensures Evaluate(env, pc, data, skipped) == Cascade <==> pc.ref.sid in skipped
  {
  }

  /** The walk of the skip loop from position i: everything before j is listed and harmless,
      and j decides. */
  ghost predicate FirstDecided(env: Env, wf: Workflow, data: StepData, i: nat, j: nat) {
    var listed := SkippedSteps(env, wf, data);
    && i <= j <= |wf.steps|
    && (forall m :: i <= m < j ==> wf.steps[m].id in listed && !RefersTo(wf.steps[m], listed))
    && (j < |wf.steps| ==> wf.steps[j].id !in listed || RefersTo(wf.steps[j], listed))
  }

  /** How the skip loop meets an unstored step, in terms of the list. */
  lemma VerdictFromList(env: Env, wf: Workflow, data: StepData, i: nat)
    requires UniqueIds(wf) && BackwardRefs(wf) && i < |wf.steps| && wf.steps[i].id !in data
    ensures var listed, pc := SkippedSteps(env, wf, data), wf.steps[i].precondition;
            && (wf.steps[i].id in listed <==> pc.Some? && Evaluate(env, pc.value, data, Elements(listed)) != Runs)
            && (RefersTo(wf.steps[i], listed) <==> pc.Some? && Evaluate(env, pc.value, data, Elements(listed)) == Cascade)
  {
    hide Evaluate, SkippedSteps, UniqueIds, BackwardRefs;
    SkippedIsFixpoint(env, wf, data, i);
    if wf.steps[i].precondition.Some? {
      CascadeIsReference(env, wf.steps[i].precondition.value, data, Elements(SkippedSteps(env, wf, data)));
    }
  }

  lemma {:induction false} SkipFromDecides(env: Env, wf: Workflow, data: StepData, i: nat, skipped: set<StepId>) returns (j: nat)
    requires UniqueIds(wf) && BackwardRefs(wf) && i <= |wf.steps|
    requires skipped == Elements(SkippedSteps(env, wf, data))
    requires forall m :: i <= m < |wf.steps| ==> wf.steps[m].id !in data
    ensures FirstDecided(env, wf, data, i, j)
    ensures SkipFrom(env, wf, data, i, skipped) ==
            if j < |wf.steps| && RefersTo(wf.steps[j], SkippedSteps(env, wf, data)) then Raised(wf.steps[j].id)
            else At(IdAt(wf, j))
    decreases |wf.steps| - i
  {
    hide Evaluate, SkippedSteps, UniqueIds, BackwardRefs, RefersTo;
    j := i;
    if i < |wf.steps| {
      VerdictFromList(env, wf, data, i);
      if wf.steps[i].precondition.Some? && Evaluate(env, wf.steps[i].precondition.value, data, skipped) == Skips {
        assert skipped + {wf.steps[i].id} == skipped;
        j := SkipFromDecides(env, wf, data, i + 1, skipped);
      }
    }
  }

  /** With strictly backward refs and nothing stored from the pointer on, the skip loop returns
      the first step at or after the pointer that is not listed (or complete), and raises
      exactly when it first meets a listed step whose precondition names a listed step. */
  lemma SkipLoopMeaning(env: Env, wf: Workflow, data: StepData, i: nat) returns (j: nat)
    requires UniqueIds(wf) && BackwardRefs(wf) && i < |wf.steps|
    requires forall m :: i <= m < |wf.steps| ==> wf.steps[m].id !in data
    ensures FirstDecided(env, wf, data, i, j)
    ensures ApplySkips(env, wf, data, wf.steps[i].id, false) ==
            if j < |wf.steps| && RefersTo(wf.steps[j], SkippedSteps(env, wf, data)) then Raised(wf.steps[j].id)
            else At(IdAt(wf, j))
  {
    PositionOfIdAt(wf, i);
    j := SkipFromDecides(env, wf, data, i, Elements(SkippedSteps(env, wf, data)));
  }

  /** The step is listed before the loop starts, or the loop went past it between i and m. */
  ghost predicate GoneBy(wf: Workflow, listed: set<StepId>, i: nat, m: nat, sid: StepId)
    requires m <= |wf.steps|
  {
    sid in listed || exists k :: i <= k < m && wf.steps[k].id == sid
  }

  /** The loop goes past step m: it has a precondition, which names no skipped step and is not met. */
  ghost predicate GoesPast(env: Env, wf: Workflow, data: StepData, listed: set<StepId>, i: nat, m: nat)
    requires m < |wf.steps|
  {
    var pc := wf.steps[m].precondition;
    pc.Some? && !GoneBy(wf, listed, i, m, pc.value.ref.sid) && !Met(env, pc.value, data)
  }

  /** Where the loop that starts at position i ends, on any data: it goes past the steps before j, and
      raises at j, stops at j or completes. */
  ghost predicate EndsAt(env: Env, wf: Workflow, data: StepData, listed: set<StepId>, i: nat, j: nat, r: SkipResult) {
    && i <= j <= |wf.steps|
    && (forall m :: i <= m < j ==> GoesPast(env, wf, data, listed, i, m))
    && (j == |wf.steps| ==> r == At(COMPLETE))
    && (j < |wf.steps| ==>
          var pc := wf.steps[j].precondition;
          if pc.Some? && GoneBy(wf, listed, i, j, pc.value.ref.sid) then r == Raised(wf.steps[j].id)
          else r == At(wf.steps[j].id) && (pc.Some? ==> Met(env, pc.value, data)))
  }

  lemma {:induction false} SkipFromEnds(env: Env, wf: Workflow, data: StepData, listed: set<StepId>, i: nat, m: nat, skipped: set<StepId>) returns (j: nat)
    requires i <= m <= |wf.steps| && forall k :: i <= k < m ==> GoesPast(env, wf, data, listed, i, k)
    requires forall sid :: sid in skipped <==> GoneBy(wf, listed, i, m, sid)
    ensures EndsAt(env, wf, data, listed, i, j, SkipFrom(env, wf, data, m, skipped))
    decreases |wf.steps| - m
  {
    hide Evaluate, Met;
    j := m;
    if m < |wf.steps| && wf.steps[m].precondition.Some? {
      VerdictMeans(env, wf.steps[m].precondition.value, data, skipped);
      if Evaluate(env, wf.steps[m].precondition.value, data, skipped) == Skips {
        var skipped' := skipped + {wf.steps[m].id};
        forall sid ensures sid in skipped' <==> GoneBy(wf, listed, i, m + 1, sid) {
          assert GoneBy(wf, listed, i, m + 1, sid) <==> GoneBy(wf, listed, i, m, sid) || wf.steps[m].id == sid;
        }
        j := SkipFromEnds(env, wf, data, listed, i, m + 1, skipped');
      }
    }
  }

  /** On any data, stored steps or not: the skip loop stops at the first step whose precondition is
      met or that has none, and raises at one that names a skipped step, whichever it meets first. */
  lemma SkipLoopStops(env: Env, wf: Workflow, data: StepData, i: nat) returns (j: nat)
    requires UniqueIds(wf) && i < |wf.steps|
    ensures EndsAt(env, wf, data, Elements(SkippedSteps(env, wf, data)), i, j, ApplySkips(env, wf, data, wf.steps[i].id, false))
  {
    PositionOfIdAt(wf, i);
    j := SkipFromEnds(env, wf, data, Elements(SkippedSteps(env, wf, data)), i, i, Elements(SkippedSteps(env, wf, data)));
  }

  /** The loop never goes back, stored steps or not. */
  lemma {:induction false} SkipFromForward(env: Env, wf: Workflow, data: StepData, i: nat, skipped: set<StepId>)
    requires UniqueIds(wf) && i <= |wf.steps|
    ensures var r := SkipFrom(env, wf, data, i, skipped);
            r.At? ==> Pointer(wf, r.id) && Position(wf, r.id) >= i
    decreases |wf.steps| - i
  {
    PositionOfIdAt(wf, i);
    if i < |wf.steps| && wf.steps[i].precondition.Some?
       && Evaluate(env, wf.steps[i].precondition.value, data, skipped) == Skips {
      SkipFromForward(env, wf, data, i + 1, skipped + {wf.steps[i].id});
    }
  }

  lemma ApplySkipsForward(env: Env, wf: Workflow, data: StepData, pointer: StepId, forceBranched: bool)
    requires UniqueIds(wf)
    ensures var r := ApplySkips(env, wf, data, pointer, forceBranched);
            r.At? ==> Position(wf, r.id) >= Position(wf, pointer) && (Pointer(wf, pointer) ==> Pointer(wf, r.id))
  {
    if FindStep(wf, pointer) >= 0 {
      SkipFromForward(env, wf, data, FindStep(wf, pointer), Elements(SkippedSteps(env, wf, data)));
    }
  }
}
