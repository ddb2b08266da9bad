/** Call-graph validation: megalos_server/schema.py `validate_workflow_calls`.
    An iterative three-colour depth-first search; the proof keeps a ghost finishing
    order, in which callees come first exactly when no cycle was reported. */
module CallGraph {
  import opened Options
  import opened Workflows
  import opened Sequences

  /** The adjacency the source builds first; only loaded targets are followed. */
  type Graph = map<Name, set<Name>>

  function CallGraphOf(wfs: Catalogue): (g: Graph)
    ensures g.Keys == wfs.Keys && Closed(g)
    ensures forall a, b :: Edge(g, a, b) <==> a in wfs && b in wfs && exists s :: s in wfs[a].steps && s.call == Some(b)
  {
    map n | n in wfs :: Targets(wfs, n)
  }

  function Targets(wfs: Catalogue, n: Name): (targets: set<Name>)
    requires n in wfs
    ensures forall t :: t in targets <==> t in wfs && exists s :: s in wfs[n].steps && s.call == Some(t)
  {
    set s | s in wfs[n].steps && s.call.Some? && s.call.value in wfs :: s.call.value
  }

  predicate Closed(g: Graph) {
    forall a :: a in g ==> g[a] <= g.Keys
  }

  predicate Edge(g: Graph, a: Name, b: Name) {
    a in g && b in g[a]
  }

  ghost predicate Link(g: Graph, p: seq<Name>, i: nat)
    requires 0 < i < |p|
  {
    Edge(g, p[i - 1], p[i])
  }

  ghost predicate Walk(g: Graph, p: seq<Name>) {
    forall i :: 0 < i < |p| ==> Link(g, p, i)
  }

  ghost predicate ClosedWalk(g: Graph, p: seq<Name>) {
    |p| >= 2 && p[0] == p[|p| - 1] && Walk(g, p)
  }

  ghost predicate Acyclic(g: Graph) {
    forall p :: !ClosedWalk(g, p)
  }

  ghost predicate StepsLoaded(wfs: Catalogue, steps: seq<Step>) {
    forall s :: s in steps && s.call.Some? ==> s.call.value in wfs
  }

  ghost predicate TargetsLoaded(wfs: Catalogue) {
    forall n :: n in wfs ==> StepsLoaded(wfs, wfs[n].steps)
  }

  /** What the validator accepts. */
  ghost predicate Accepted(wfs: Catalogue) {
    TargetsLoaded(wfs) && Acyclic(CallGraphOf(wfs))
  }

  datatype CallError =
    | UnknownTarget(parent: Name, step: StepId, target: Name)
    | Cycle(path: seq<Name>)

  /** What one reported error asserts about the loaded workflows. */
  ghost predicate Truthful(wfs: Catalogue, e: CallError) {
    match e
    case UnknownTarget(p, sid, t) =>
      p in wfs && t !in wfs && exists s :: s in wfs[p].steps && s.id == sid && s.call == Some(t)
    case Cycle(path) => ClosedWalk(CallGraphOf(wfs), path)
  }

  /** A listing of a set of names (the source sorts them; the order only decides the order
      of the messages). */
  method Listing(names: set<Name>) returns (xs: seq<Name>)
    ensures Distinct(xs) && forall n :: n in xs <==> n in names
  {
    xs := [];
    var rest := names;
    while rest != {}
      invariant rest <= names && Distinct(xs) && forall n :: n in xs ==> n !in rest
      invariant forall n :: n in names <==> n in rest || n in xs
      decreases |rest|
    {
      var n :| n in rest;
      xs := xs + [n];
      rest := rest - {n};
    }
  }

  // --- Finishing orders -------------------------------------------------------

  /** The edge with which a reported cycle closes. */
  ghost predicate Closing(errors: seq<CallError>, a: Name, b: Name) {
    exists e :: e in errors && Closes(e, a, b)
  }

  predicate Closes(e: CallError, a: Name, b: Name) {
    e.Cycle? && |e.path| >= 2 && e.path[|e.path| - 2] == a && e.path[|e.path| - 1] == b
  }

  ghost predicate CalleesBefore(g: Graph, errors: seq<CallError>, order: seq<Name>, i: nat)
    requires i < |order|
  {
    forall t :: Edge(g, order[i], t) ==> t in order[..i] || Closing(errors, order[i], t)
  }

  /** Every name is preceded in `order` by everything it calls, but for the reported closing edges. */
  ghost predicate CalleesFirst(g: Graph, errors: seq<CallError>, order: seq<Name>) {
    forall i :: 0 <= i < |order| ==> CalleesBefore(g, errors, order, i)
  }

  ghost predicate NoCycleIn(errors: seq<CallError>) {
    forall e :: e in errors ==> !e.Cycle?
  }

  lemma WalkSuffix(g: Graph, p: seq<Name>, k: nat)
    requires Walk(g, p) && k <= |p|
    ensures Walk(g, p[k..])
  {
    forall i | 0 < i < |p[k..]| ensures Link(g, p[k..], i) {
      assert Link(g, p, k + i);
    }
  }

  lemma WalkSnoc(g: Graph, p: seq<Name>, n: Name)
    requires Walk(g, p) && p != [] && Edge(g, p[|p| - 1], n)
    ensures Walk(g, p + [n])
  {
    forall i | 0 < i < |p + [n]| ensures Link(g, p + [n], i) {
      assert i < |p| ==> Link(g, p, i);
    }
  }

  lemma WalkPrefix(g: Graph, p: seq<Name>, k: nat)
    requires Walk(g, p) && k <= |p|
    ensures Walk(g, p[..k])
  {
    forall i | 0 < i < |p[..k]| ensures Link(g, p[..k], i) {
      assert Link(g, p, i);
    }
  }

  /** The walk takes no reported closing edge. */
  ghost predicate Unreported(errors: seq<CallError>, p: seq<Name>) {
    forall i :: 0 < i < |p| ==> !Closing(errors, p[i - 1], p[i])
  }

  /** Along a walk without reported edges the position in a callees-first order strictly decreases. */
  lemma {:induction false} WalkDescends(g: Graph, errors: seq<CallError>, order: seq<Name>, p: seq<Name>, i: nat) returns (j: nat)
    requires CalleesFirst(g, errors, order) && Walk(g, p) && |p| >= 1 && Unreported(errors, p)
    requires i < |order| && order[i] == p[0]
    ensures j <= i && order[j] == p[|p| - 1]
    ensures |p| >= 2 ==> j < i
    decreases |p|
  {
    if |p| == 1 {
      j := i;
    } else {
      assert Link(g, p, 1) && CalleesBefore(g, errors, order, i) && !Closing(errors, p[0], p[1]);
      var k :| 0 <= k < i && order[k] == p[1];
      WalkSuffix(g, p, 1);
      assert forall m :: 0 < m < |p[1..]| ==> p[1..][m - 1] == p[m] && p[1..][m] == p[m + 1];
      j := WalkDescends(g, errors, order, p[1..], k);
    }
  }

  /** Every closed walk takes the closing edge of a reported cycle; with none reported there is no
      closed walk. */
  lemma FinishingOrderExcludesCycles(g: Graph, errors: seq<CallError>, order: seq<Name>)
    requires CalleesFirst(g, errors, order) && Distinct(order)
    requires forall n :: n in g ==> n in order
    ensures forall p :: ClosedWalk(g, p) ==> !Unreported(errors, p)
    ensures NoCycleIn(errors) ==> Acyclic(g)
  {
    forall p | ClosedWalk(g, p) ensures !Unreported(errors, p) {
      if Unreported(errors, p) {
        assert Link(g, p, 1);
        var i :| 0 <= i < |order| && order[i] == p[0];
        var j := WalkDescends(g, errors, order, p, i);
        assert false;
      }
    }
    if NoCycleIn(errors) {
      forall p ensures !ClosedWalk(g, p) {
        assert Unreported(errors, p);
      }
    }
  }

  // --- The search state -------------------------------------------------------

  datatype Colour = White | Gray | Black
  datatype Frontier = Frontier(node: Name, remaining: seq<Name>, path: seq<Name>)

  function PathOf(stack: seq<Frontier>): seq<Name> {
    if stack == [] then [] else stack[|stack| - 1].path
  }

  /** The stack spells one walk of pairwise different nodes, the path of its top entry. */
  ghost predicate StackIsPath(g: Graph, stack: seq<Frontier>) {
    var p := PathOf(stack);
    && |p| == |stack|
    && Walk(g, p) && Distinct(p)
    && (forall n :: n in p ==> n in g)
    && (forall i :: 0 <= i < |stack| ==> stack[i].node == p[i] && stack[i].path == p[..i + 1])
    && (forall i :: 0 <= i < |stack| ==> forall t :: t in stack[i].remaining ==> Edge(g, stack[i].node, t))
  }

  /** The variables the searching closure shares with its caller; `order` is the ghost
      finishing order. */
  ghost predicate Consistent(g: Graph, colour: map<Name, Colour>, errors: seq<CallError>, order: seq<Name>) {
    && Closed(g) && colour.Keys == g.Keys
    && (forall n :: n in g ==> (colour[n] == Black <==> n in order))
    && Distinct(order)
    && (forall e :: e in errors && e.Cycle? ==> ClosedWalk(g, e.path))
    && CalleesFirst(g, errors, order)
  }

  /** Every callee already taken from entry i is finished, is the next entry up, or was reported. */
  ghost predicate Handled(g: Graph, errors: seq<CallError>, order: seq<Name>, stack: seq<Frontier>, i: nat)
    requires i < |stack|
  {
    forall t :: Edge(g, stack[i].node, t) ==>
      t in stack[i].remaining || t in order || (i + 1 < |stack| && stack[i + 1].node == t) || Closing(errors, stack[i].node, t)
  }

  /** Grey nodes are exactly the path on the stack. */
  ghost predicate GrayIsPath(g: Graph, colour: map<Name, Colour>, path: seq<Name>)
    requires g.Keys <= colour.Keys
  {
    forall n :: n in g ==> (colour[n] == Gray <==> n in path)
  }

  lemma GrayPush(g: Graph, colour: map<Name, Colour>, path: seq<Name>, nxt: Name)
    requires g.Keys <= colour.Keys && GrayIsPath(g, colour, path)
    ensures GrayIsPath(g, colour[nxt := Gray], path + [nxt])
  {
  }

  lemma GrayPop(g: Graph, colour: map<Name, Colour>, path: seq<Name>, node: Name)
    requires g.Keys <= colour.Keys && GrayIsPath(g, colour, path + [node]) && node !in path
    ensures GrayIsPath(g, colour[node := Black], path)
  {
    forall n | n in g ensures colour[node := Black][n] == Gray <==> n in path {
      assert n in path + [node] <==> n in path || n == node;
    }
  }

  ghost predicate AllHandled(g: Graph, errors: seq<CallError>, order: seq<Name>, stack: seq<Frontier>) {
    forall i :: 0 <= i < |stack| ==> Handled(g, errors, order, stack, i)
  }

  ghost predicate Searching(g: Graph, colour: map<Name, Colour>, errors: seq<CallError>,
                            order: seq<Name>, stack: seq<Frontier>) {
    && Consistent(g, colour, errors, order)
    && StackIsPath(g, stack)
    && GrayIsPath(g, colour, PathOf(stack))
    && AllHandled(g, errors, order, stack)
  }

  lemma FinishKeepsConsistent(g: Graph, colour: map<Name, Colour>, errors: seq<CallError>, order: seq<Name>, node: Name)
    requires Consistent(g, colour, errors, order)
    requires node in g && colour[node] != Black
    requires forall t :: Edge(g, node, t) ==> t in order || Closing(errors, node, t)
    ensures Consistent(g, colour[node := Black], errors, order + [node])
  {
    var order' := order + [node];
    assert node !in order;
    forall i | 0 <= i < |order'| ensures CalleesBefore(g, errors, order', i) {
      if i < |order| {
        assert CalleesBefore(g, errors, order, i) && order'[..i] == order[..i];
      } else {
        assert order'[..i] == order;
      }
    }
  }

  lemma PopKeepsPath(g: Graph, stack: seq<Frontier>)
    requires StackIsPath(g, stack) && stack != []
    ensures StackIsPath(g, stack[..|stack| - 1])
    ensures PathOf(stack) == PathOf(stack[..|stack| - 1]) + [stack[|stack| - 1].node]
    ensures stack[|stack| - 1].node !in PathOf(stack[..|stack| - 1])
  {
    var n, p := |stack| - 1, PathOf(stack);
    assert p == p[..n] + [stack[n].node];
    assert PathOf(stack[..n]) == p[..n];
    WalkPrefix(g, p, n);
  }

  lemma FinishStep(g: Graph, colour: map<Name, Colour>, errors: seq<CallError>, order: seq<Name>, stack: seq<Frontier>)
    requires Searching(g, colour, errors, order, stack)
    requires stack != [] && stack[|stack| - 1].remaining == []
    ensures var node := stack[|stack| - 1].node;
            node in colour && Searching(g, colour[node := Black], errors, order + [node], stack[..|stack| - 1])
  {
    var n := |stack| - 1;
    var node := stack[n].node;
    var rest, order' := stack[..n], order + [node];
    PopKeepsPath(g, stack);
    assert node in PathOf(stack) && node in g && colour[node] == Gray;
    assert Handled(g, errors, order, stack, n);
    FinishKeepsConsistent(g, colour, errors, order, node);
    GrayPop(g, colour, PathOf(rest), node);
    HandledPop(g, errors, order, stack);
  }

  lemma TopIsGray(g: Graph, colour: map<Name, Colour>, errors: seq<CallError>, order: seq<Name>, stack: seq<Frontier>)
    requires Searching(g, colour, errors, order, stack) && stack != []
    ensures stack[|stack| - 1].node in colour && colour[stack[|stack| - 1].node] == Gray
  {
    hide CalleesFirst, ClosedWalk, AllHandled;
    PopKeepsPath(g, stack);
    assert stack[|stack| - 1].node in PathOf(stack);
  }

  lemma TopIsLast(g: Graph, stack: seq<Frontier>)
    requires StackIsPath(g, stack) && stack != []
    ensures var top := stack[|stack| - 1]; |top.path| == |stack| && top.path[|stack| - 1] == top.node
  {
  }

  /** The stack once the top entry's next callee has been taken. */
  function Advance(stack: seq<Frontier>): seq<Frontier>
    requires stack != [] && stack[|stack| - 1].remaining != []
  {
    var top := stack[|stack| - 1];
    stack[|stack| - 1 := Frontier(top.node, top.remaining[1..], top.path)]
  }

  lemma AdvanceKeepsPath(g: Graph, stack: seq<Frontier>)
    requires stack != [] && stack[|stack| - 1].remaining != []
    requires StackIsPath(g, stack)
    ensures StackIsPath(g, Advance(stack)) && PathOf(Advance(stack)) == PathOf(stack)
    ensures Edge(g, stack[|stack| - 1].node, stack[|stack| - 1].remaining[0])
  {
    var r := stack[|stack| - 1].remaining;
    assert r == [r[0]] + r[1..];
    assert r[0] in r;
  }

  lemma NextIsNode(g: Graph, colour: map<Name, Colour>, errors: seq<CallError>, order: seq<Name>, stack: seq<Frontier>)
    requires Searching(g, colour, errors, order, stack)
    requires stack != [] && stack[|stack| - 1].remaining != []
    ensures stack[|stack| - 1].remaining[0] in g && stack[|stack| - 1].remaining[0] in colour
  {
    AdvanceKeepsPath(g, stack);
  }

  /** Taking a callee that is grey (reported) or black (already finished). */
  lemma TakeStep(g: Graph, colour: map<Name, Colour>, errors: seq<CallError>, order: seq<Name>,
                 stack: seq<Frontier>, report: seq<CallError>)
    requires Searching(g, colour, errors, order, stack)
    requires stack != [] && stack[|stack| - 1].remaining != []
    requires stack[|stack| - 1].remaining[0] in g
    requires if colour[stack[|stack| - 1].remaining[0]] == Gray
             then |report| == 1 && report[0].Cycle? && ClosedWalk(g, report[0].path)
                  && Closes(report[0], stack[|stack| - 1].node, stack[|stack| - 1].remaining[0])
             else colour[stack[|stack| - 1].remaining[0]] == Black && report == []
    ensures Searching(g, colour, errors + report, order, Advance(stack))
  {
    hide StackIsPath, GrayIsPath, CalleesFirst, ClosedWalk;
    AdvanceKeepsPath(g, stack);
    if report != [] {
      assert report == [report[0]];
      ReportKeepsConsistent(g, colour, errors, order, report[0]);
      HandledReport(g, errors, order, stack, report[0]);
      assert (errors + report)[|errors|] == report[0];
    } else {
      assert errors + report == errors;
    }
    HandledTake(g, errors + report, order, stack);
  }

  lemma ReportKeepsConsistent(g: Graph, colour: map<Name, Colour>, errors: seq<CallError>, order: seq<Name>, e: CallError)
    requires Consistent(g, colour, errors, order) && e.Cycle? && ClosedWalk(g, e.path)
    ensures Consistent(g, colour, errors + [e], order)
  {
    forall i | 0 <= i < |order| ensures CalleesBefore(g, errors + [e], order, i) {
      assert CalleesBefore(g, errors, order, i);
      ClosingStays(errors, e);
    }
  }

  lemma ClosingStays(errors: seq<CallError>, e: CallError)
    ensures forall a, b :: Closing(errors, a, b) ==> Closing(errors + [e], a, b)
  {
    forall a, b | Closing(errors, a, b) ensures Closing(errors + [e], a, b) {
      var x :| x in errors && Closes(x, a, b);
      assert x in errors + [e];
    }
  }

  lemma HandledReport(g: Graph, errors: seq<CallError>, order: seq<Name>, stack: seq<Frontier>, e: CallError)
    requires AllHandled(g, errors, order, stack)
    ensures AllHandled(g, errors + [e], order, stack)
  {
    ClosingStays(errors, e);
    forall i | 0 <= i < |stack| ensures Handled(g, errors + [e], order, stack, i) {
      assert Handled(g, errors, order, stack, i);
    }
  }

  /** One entry on top of the advanced stack, for a white callee of the top node, is a path again. */
  lemma DescentIsPath(g: Graph, colour: map<Name, Colour>, stack: seq<Frontier>, nxt: Name, outgoing: seq<Name>)
    requires stack != [] && stack[|stack| - 1].remaining != [] && nxt == stack[|stack| - 1].remaining[0]
    requires StackIsPath(g, stack) && g.Keys <= colour.Keys && GrayIsPath(g, colour, PathOf(stack))
    requires nxt in g && colour[nxt] == White
    requires forall t :: t in outgoing ==> t in g[nxt]
    ensures var p := stack[|stack| - 1].path; var after := Advance(stack) + [Frontier(nxt, outgoing, p + [nxt])];
            PathOf(after) == PathOf(stack) + [nxt] && StackIsPath(g, after)
  {
    hide Walk;
    var p := stack[|stack| - 1].path;
    var after := Advance(stack) + [Frontier(nxt, outgoing, p + [nxt])];
    AdvanceKeepsPath(g, stack);
    assert p == PathOf(stack) by {
      assert PathOf(stack)[..|stack|] == PathOf(stack);
    }
    assert nxt !in p;
    WalkSnoc(g, p, nxt);
    assert PathOf(after) == p + [nxt];
    DeeperIsPath(g, Advance(stack), after);
  }

  lemma DescendStep(g: Graph, colour: map<Name, Colour>, errors: seq<CallError>, order: seq<Name>,
                    stack: seq<Frontier>, outgoing: seq<Name>)
    requires Searching(g, colour, errors, order, stack)
    requires stack != [] && stack[|stack| - 1].remaining != []
    requires stack[|stack| - 1].remaining[0] in g && colour[stack[|stack| - 1].remaining[0]] == White
    requires forall t :: t in outgoing <==> t in g[stack[|stack| - 1].remaining[0]]
    ensures var top := stack[|stack| - 1]; var nxt := top.remaining[0];
            Searching(g, colour[nxt := Gray], errors, order, Advance(stack) + [Frontier(nxt, outgoing, top.path + [nxt])])
  {
    hide StackIsPath, GrayIsPath, CalleesFirst, ClosedWalk;
    var top := stack[|stack| - 1];
    var nxt := top.remaining[0];
    var after := Advance(stack) + [Frontier(nxt, outgoing, top.path + [nxt])];
    DescentIsPath(g, colour, stack, nxt, outgoing);
    GrayPush(g, colour, PathOf(stack), nxt);
    HandledPush(g, errors, order, stack, after);
    RecolourKeepsConsistent(g, colour, errors, order, nxt);
  }

  lemma RecolourKeepsConsistent(g: Graph, colour: map<Name, Colour>, errors: seq<CallError>, order: seq<Name>, n: Name)
    requires Consistent(g, colour, errors, order)
    requires n in g && colour[n] == White
    ensures Consistent(g, colour[n := Gray], errors, order)
  {
  }

  lemma HandledPush(g: Graph, errors: seq<CallError>, order: seq<Name>, stack: seq<Frontier>, after: seq<Frontier>)
    requires stack != [] && stack[|stack| - 1].remaining != []
    requires |after| == |stack| + 1 && after[..|stack|] == Advance(stack)
    requires after[|stack|].node == stack[|stack| - 1].remaining[0]
    requires AllHandled(g, errors, order, stack)
    requires forall t :: Edge(g, after[|stack|].node, t) ==> t in after[|stack|].remaining
    ensures AllHandled(g, errors, order, after)
  {
    var r := stack[|stack| - 1].remaining;
    assert r == [r[0]] + r[1..];
    forall i | 0 <= i < |after| ensures Handled(g, errors, order, after, i) {
      if i < |stack| {
        assert Handled(g, errors, order, stack, i);
        assert after[i] == Advance(stack)[i];
        assert i + 1 < |stack| ==> after[i + 1] == Advance(stack)[i + 1];
      }
    }
  }

  lemma HandledTake(g: Graph, errors: seq<CallError>, order: seq<Name>, stack: seq<Frontier>)
    requires stack != [] && stack[|stack| - 1].remaining != []
    requires AllHandled(g, errors, order, stack)
    requires stack[|stack| - 1].remaining[0] in order || Closing(errors, stack[|stack| - 1].node, stack[|stack| - 1].remaining[0])
    ensures AllHandled(g, errors, order, Advance(stack))
  {
    var r := stack[|stack| - 1].remaining;
    assert r == [r[0]] + r[1..];
    forall i | 0 <= i < |stack| ensures Handled(g, errors, order, Advance(stack), i) {
      assert Handled(g, errors, order, stack, i);
    }
  }

  lemma HandledPop(g: Graph, errors: seq<CallError>, order: seq<Name>, stack: seq<Frontier>)
    requires stack != [] && AllHandled(g, errors, order, stack)
    ensures AllHandled(g, errors, order + [stack[|stack| - 1].node], stack[..|stack| - 1])
  {
    var rest, order' := stack[..|stack| - 1], order + [stack[|stack| - 1].node];
    forall i | 0 <= i < |rest| ensures Handled(g, errors, order', rest, i) {
      assert Handled(g, errors, order, stack, i);
    }
  }

  lemma DeeperIsPath(g: Graph, lower: seq<Frontier>, after: seq<Frontier>)
    requires StackIsPath(g, lower) && lower != []
    requires |after| == |lower| + 1 && after[..|lower|] == lower
    requires PathOf(after) == PathOf(lower) + [after[|lower|].node]
    requires Walk(g, PathOf(after)) && after[|lower|].node !in PathOf(lower) && after[|lower|].node in g
    requires forall t :: t in after[|lower|].remaining ==> Edge(g, after[|lower|].node, t)
    ensures StackIsPath(g, after)
  {
    var p := PathOf(lower);
    forall i | 0 <= i < |after|
      ensures after[i].node == PathOf(after)[i] && after[i].path == PathOf(after)[..i + 1]
      ensures forall t :: t in after[i].remaining ==> Edge(g, after[i].node, t)
    {
      if i < |lower| {
        assert after[i] == lower[i];
        assert PathOf(after)[..i + 1] == p[..i + 1];
      }
    }
  }

  lemma SearchStarts(g: Graph, colour: map<Name, Colour>, errors: seq<CallError>, order: seq<Name>,
                     start: Name, outgoing: seq<Name>)
    requires Consistent(g, colour, errors, order) && GrayIsPath(g, colour, [])
    requires start in g && colour[start] == White
    requires forall t :: t in outgoing <==> t in g[start]
    ensures Searching(g, colour[start := Gray], errors, order, [Frontier(start, outgoing, [start])])
  {
    var stack := [Frontier(start, outgoing, [start])];
    RecolourKeepsConsistent(g, colour, errors, order, start);
    GrayPush(g, colour, [], start);
    assert [] + [start] == [start];
    assert PathOf(stack) == [start];
    forall i | 0 <= i < |stack| ensures Handled(g, errors, order, stack, i) {
    }
  }

  /** The slice of the path from a grey node back to itself is a closed walk. */
  lemma CycleIsClosed(g: Graph, path: seq<Name>, idx: nat, nxt: Name)
    requires Walk(g, path) && idx < |path| && path[idx] == nxt
    requires Edge(g, path[|path| - 1], nxt)
    ensures ClosedWalk(g, path[idx..] + [nxt])
  {
    WalkSuffix(g, path, idx);
    WalkSnoc(g, path[idx..], nxt);
  }

  function TotalRemaining(stack: seq<Frontier>): nat {
    if stack == [] then 0 else |stack[|stack| - 1].remaining| + TotalRemaining(stack[..|stack| - 1])
  }

  lemma AdvanceShrinks(stack: seq<Frontier>)
    requires stack != [] && stack[|stack| - 1].remaining != []
    ensures TotalRemaining(Advance(stack)) + 1 == TotalRemaining(stack)
  {
    assert Advance(stack)[..|stack| - 1] == stack[..|stack| - 1];
  }

  ghost function Whites(colour: map<Name, Colour>): set<Name> {
    set n | n in colour && colour[n] == White
  }

  /** One error for every step that calls a workflow that is not loaded, in the order of the steps. */
  function UnknownOf(wfs: Catalogue, name: Name, steps: seq<Step>): seq<CallError> {
    if steps == [] then []
    else
      var s := steps[|steps| - 1];
      UnknownOf(wfs, name, steps[..|steps| - 1])
      + if s.call.Some? && s.call.value !in wfs then [UnknownTarget(name, s.id, s.call.value)] else []
  }

  function AllUnknown(wfs: Catalogue, names: seq<Name>): seq<CallError>
    requires forall n :: n in names ==> n in wfs
  {
    if names == [] then []
    else AllUnknown(wfs, names[..|names| - 1]) + UnknownOf(wfs, names[|names| - 1], wfs[names[|names| - 1]].steps)
  }

  lemma {:induction false} UnknownOfMeans(wfs: Catalogue, name: Name, steps: seq<Step>, e: CallError)
    ensures e in UnknownOf(wfs, name, steps) <==>
            e.UnknownTarget? && e.parent == name && exists s :: s in steps && s.id == e.step && s.call == Some(e.target) && e.target !in wfs
  {
    if steps != [] {
      UnknownOfMeans(wfs, name, steps[..|steps| - 1], e);
      assert steps == steps[..|steps| - 1] + [steps[|steps| - 1]];
    }
  }

  /** The errors are exactly the calls of workflows that are not loaded. */
  lemma {:induction false} AllUnknownMeans(wfs: Catalogue, names: seq<Name>, e: CallError)
    requires forall n :: n in names ==> n in wfs
    ensures e in AllUnknown(wfs, names) <==>
            e.UnknownTarget? && e.parent in names && e.target !in wfs && exists s :: s in wfs[e.parent].steps && s.id == e.step && s.call == Some(e.target)
  {
    if names != [] {
      AllUnknownMeans(wfs, names[..|names| - 1], e);
      UnknownOfMeans(wfs, names[|names| - 1], wfs[names[|names| - 1]].steps, e);
      assert names == names[..|names| - 1] + [names[|names| - 1]];
    }
  }

  /** Every workflow once. */
  ghost predicate ListsAll(wfs: Catalogue, names: seq<Name>) {
    Distinct(names) && forall n :: n in names <==> n in wfs
  }

  /** The first pass: workflow by workflow, step by step. */
  method UnknownTargets(wfs: Catalogue) returns (errors: seq<CallError>, ghost names: seq<Name>)
    ensures ListsAll(wfs, names) && errors == AllUnknown(wfs, names)
    ensures forall e :: e in errors ==> e.UnknownTarget? && Truthful(wfs, e)
    ensures errors == [] <==> TargetsLoaded(wfs)
  {
    errors := [];
    var listed := Listing(wfs.Keys);
    names := listed;
    var i := 0;
    while i < |listed|
      invariant 0 <= i <= |listed| && errors == AllUnknown(wfs, listed[..i])
    {
      var steps := wfs[listed[i]].steps;
      ghost var before := errors;
      var j := 0;
      while j < |steps|
        invariant 0 <= j <= |steps| && errors == before + UnknownOf(wfs, listed[i], steps[..j])
      {
        var s := steps[j];
        assert steps[..j + 1][..j] == steps[..j];
        if s.call.Some? && s.call.value !in wfs {
          errors := errors + [UnknownTarget(listed[i], s.id, s.call.value)];
        }
        j := j + 1;
      }
      assert steps[..j] == steps && listed[..i + 1][..i] == listed[..i];
      i := i + 1;
    }
    assert listed[..i] == listed;
    UnknownIffLoaded(wfs, names);
  }

  lemma UnknownIffLoaded(wfs: Catalogue, names: seq<Name>)
    requires forall n :: n in names <==> n in wfs
    ensures var errors := AllUnknown(wfs, names);
            && (forall e :: e in errors ==> e.UnknownTarget? && Truthful(wfs, e))
            && (errors == [] <==> TargetsLoaded(wfs))
  {
    var errors := AllUnknown(wfs, names);
    forall e | e in errors ensures e.UnknownTarget? && Truthful(wfs, e) {
      AllUnknownMeans(wfs, names, e);
    }
    if errors != [] {
      AllUnknownMeans(wfs, names, errors[0]);
    }
    if !TargetsLoaded(wfs) {
      var n :| n in wfs && !StepsLoaded(wfs, wfs[n].steps);
      var s :| s in wfs[n].steps && s.call.Some? && s.call.value !in wfs;
      AllUnknownMeans(wfs, names, UnknownTarget(n, s.id, s.call.value));
    }
  }

  /** The searching closure `visit` with the variables it shares with its caller. */
  class CycleFinder {
    const g: Graph
    var colour: map<Name, Colour>
    var errors: seq<CallError>
    ghost var order: seq<Name>

    constructor (graph: Graph, unknown: seq<CallError>)
      requires Closed(graph) && NoCycleIn(unknown)
      ensures g == graph && errors == unknown && Settled()
    {
      g := graph;
      colour := map n | n in graph :: White;
      errors := unknown;
      order := [];
    }

    ghost predicate Settled()
      reads this
    {
      && Consistent(g, colour, errors, order)
      && GrayIsPath(g, colour, [])
    }

    /** The top entry has no callee left: it is finished. */
    method Finish(stack: seq<Frontier>) returns (next: seq<Frontier>)
      requires Searching(g, colour, errors, order, stack) && stack != []
      requires stack[|stack| - 1].remaining == []
      modifies this`colour, this`order
      ensures Searching(g, colour, errors, order, next)
      ensures next == stack[..|stack| - 1]
      ensures order == old(order) + [stack[|stack| - 1].node]
      ensures Whites(colour) == Whites(old(colour))
    {
      hide StackIsPath, GrayIsPath, AllHandled, CalleesFirst, ClosedWalk;
      var node := stack[|stack| - 1].node;
      FinishStep(g, colour, errors, order, stack);
      next := stack[..|stack| - 1];
      TopIsGray(g, colour, errors, order, stack);
      assert Whites(colour[node := Black]) == Whites(colour);
      colour := colour[node := Black];
      order := order + [node];
    }

    /** The next callee is on the path: report the cycle, do not descend. */
    method Report(stack: seq<Frontier>) returns (cycle: seq<Name>)
      requires Searching(g, colour, errors, order, stack) && stack != []
      requires stack[|stack| - 1].remaining != []
      requires stack[|stack| - 1].remaining[0] in g && colour[stack[|stack| - 1].remaining[0]] == Gray
      modifies this`errors
      ensures Searching(g, colour, errors, order, Advance(stack))
      ensures errors == old(errors) + [Cycle(cycle)]
    {
      var top := stack[|stack| - 1];
      var nxt, path := top.remaining[0], top.path;
      var idx :| 0 <= idx < |path| && path[idx] == nxt;
      cycle := path[idx..] + [nxt];
      assert ClosedWalk(g, cycle) by {
        AdvanceKeepsPath(g, stack);
        CycleIsClosed(g, path, idx, nxt);
      }
      assert Closes(Cycle(cycle), top.node, nxt) by {
        assert path[idx..][|path| - idx - 1] == path[|path| - 1];
        TopIsLast(g, stack);
      }
      var report := [Cycle(cycle)];
      TakeStep(g, colour, errors, order, stack, report);
      errors := errors + report;
    }

    /** The next callee is white: push it with its own callees. */
    method Descend(stack: seq<Frontier>) returns (next: seq<Frontier>)
      requires Searching(g, colour, errors, order, stack) && stack != []
      requires stack[|stack| - 1].remaining != []
      requires stack[|stack| - 1].remaining[0] in g && colour[stack[|stack| - 1].remaining[0]] == White
      modifies this`colour
      ensures Searching(g, colour, errors, order, next)
      ensures next != [] && next[0].node == stack[0].node
      ensures |Whites(colour)| < |Whites(old(colour))|
    {
      hide StackIsPath, GrayIsPath, AllHandled, CalleesFirst, ClosedWalk;
      var top := stack[|stack| - 1];
      var nxt := top.remaining[0];
      var out := Listing(g[nxt]);
      DescendStep(g, colour, errors, order, stack, out);
      assert Whites(colour[nxt := Gray]) == Whites(colour) - {nxt} && nxt in Whites(colour);
      colour := colour[nxt := Gray];
      next := Advance(stack) + [Frontier(nxt, out, top.path + [nxt])];
    }

    /** The next callee is finished: skip it. */
    method Skip(stack: seq<Frontier>)
      requires Searching(g, colour, errors, order, stack) && stack != []
      requires stack[|stack| - 1].remaining != []
      requires stack[|stack| - 1].remaining[0] in g && colour[stack[|stack| - 1].remaining[0]] == Black
      ensures Searching(g, colour, errors, order, Advance(stack))
    {
      TakeStep(g, colour, errors, order, stack, []);
      assert errors + [] == errors;
    }

    /** One turn of the while loop on a non-empty stack. */
    method Step(stack: seq<Frontier>) returns (next: seq<Frontier>)
      requires Searching(g, colour, errors, order, stack) && stack != []
      modifies this
      ensures Searching(g, colour, errors, order, next)
      ensures old(order) <= order
      ensures errors == old(errors) || exists cycle :: errors == old(errors) + [Cycle(cycle)]
      ensures if next == [] then stack[0].node in order else next[0].node == stack[0].node
      ensures |Whites(colour)| < |Whites(old(colour))| ||
              (Whites(colour) == Whites(old(colour)) && TotalRemaining(next) + |next| < TotalRemaining(stack) + |stack|)
    {
      hide Searching;
      if stack[|stack| - 1].remaining == [] {
        next := Finish(stack);
        return;
      }
      AdvanceShrinks(stack);
      NextIsNode(g, colour, errors, order, stack);
      var nxt := stack[|stack| - 1].remaining[0];
      if colour[nxt] == White {
        next := Descend(stack);
        return;
      }
      next := Advance(stack);
      if colour[nxt] == Gray {
        var cycle := Report(stack);
      } else {
        Skip(stack);
      }
    }

    /** Depth-first search from one white node; afterwards it is black and nothing is grey. */
    method Visit(start: Name)
      requires Settled()
      requires start in g && colour[start] == White
      modifies this
      ensures Settled() && colour[start] == Black
      ensures forall n :: n in g && old(colour[n]) == Black ==> colour[n] == Black
      ensures old(errors) <= errors
      ensures forall e :: e in errors && e !in old(errors) ==> e.Cycle?
    {
      hide StackIsPath, AllHandled, CalleesFirst, NoCycleIn, Distinct;
      var outgoing := Listing(g[start]);
      SearchStarts(g, colour, errors, order, start, outgoing);
      colour := colour[start := Gray];
      var stack := [Frontier(start, outgoing, [start])];
      while stack != []
        invariant Searching(g, colour, errors, order, stack)
        invariant if stack == [] then start in order else stack[0].node == start
        invariant old(order) <= order
        invariant old(errors) <= errors
        invariant forall e :: e in errors && e !in old(errors) ==> e.Cycle?
        decreases |Whites(colour)|, TotalRemaining(stack) + |stack|
      {
        stack := Step(stack);
      }
    }

    /** The outer loop: a search from every node that is still white. */
    method SearchAll()
      requires Settled()
      modifies this
      ensures Settled() && forall n :: n in g ==> colour[n] == Black
      ensures old(errors) <= errors
      ensures forall e :: e in errors && e !in old(errors) ==> e.Cycle?
    {
      hide CalleesFirst, ClosedWalk, Closed;
      var names := Listing(g.Keys);
      var i := 0;
      while i < |names|
        invariant 0 <= i <= |names|
        invariant Settled()
        invariant forall k :: 0 <= k < i ==> names[k] in g && colour[names[k]] == Black
        invariant old(errors) <= errors
        invariant forall e :: e in errors && e !in old(errors) ==> e.Cycle?
      {
        if colour[names[i]] == White {
          Visit(names[i]);
        }
        i := i + 1;
      }
    }
  }

  /** Unknown targets first, one for every step that has one, then the cycles: no errors exactly when
      every call target is loaded and the call graph has no cycle, every error is true of the
      workflows, and every cycle of the graph takes the closing edge of a reported one. */
  method ValidateWorkflowCalls(wfs: Catalogue) returns (errors: seq<CallError>, ghost names: seq<Name>)
    ensures errors == [] <==> Accepted(wfs)
    ensures forall e :: e in errors ==> Truthful(wfs, e)
    ensures (exists e :: e in errors && e.UnknownTarget?) <==> !TargetsLoaded(wfs)
    ensures (exists e :: e in errors && e.Cycle?) <==> !Acyclic(CallGraphOf(wfs))
    ensures forall p :: ClosedWalk(CallGraphOf(wfs), p) ==> !Unreported(errors, p)
    ensures ListsAll(wfs, names) && AllUnknown(wfs, names) <= errors
  {
    hide AllUnknown, ListsAll, TargetsLoaded, CalleesFirst, Unreported, GrayIsPath;
    var unknown;
    unknown, names := UnknownTargets(wfs);
    var g := CallGraphOf(wfs);
    var finder := new CycleFinder(g, unknown);
    finder.SearchAll();
    errors := finder.errors;
    FinishingOrderExcludesCycles(g, errors, finder.order);
    if NoCycleIn(errors) {
      assert forall e :: e in errors ==> e in unknown;
      assert errors != [] ==> errors[0] in errors;
    } else {
      var e :| e in errors && e.Cycle?;
      assert ClosedWalk(g, e.path);
    }
    assert unknown != [] ==> unknown[0] in errors;
  }
}
