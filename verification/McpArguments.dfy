/** Argument resolution and dispatch of MCP steps: megalos_server/mcp_executor.py. */
module McpArguments {
  import opened Options
  import opened Workflows
  import opened References

  /** `resolve_args`; None is the raised skipped-predecessor exception. */
  function ResolveArgs(env: Env, arg: Arg, data: StepData, skipped: set<StepId>): (r: Option<Resolved>)
    decreases arg
  {
    match arg
    case Literal(v) => Some(Value(v))
    case RefArg(ref) =>
      (match ResolveRef(env, ref, data, skipped)
       case Skipped => None
       case Absent => Some(Missing)
       case Found(v) => Some(Value(v)))
    case ArgList(items) =>
      (match ResolveItems(env, items, data, skipped)
       case None => None
       case Some(rs) => Some(ResolvedList(rs)))
    case ArgObject(fields) =>
      match ResolveFields(env, fields, data, skipped)
      case None => None
      case Some(rs) => Some(ResolvedObject(rs))
  }

  function ResolveItems(env: Env, items: seq<Arg>, data: StepData, skipped: set<StepId>): Option<seq<Resolved>>
    decreases items
  {
    if items == [] then Some([])
    else
      match ResolveArgs(env, items[0], data, skipped)
      case None => None
      case Some(r) =>
        match ResolveItems(env, items[1..], data, skipped)
        case None => None
        case Some(rs) => Some([r] + rs)
  }

  function ResolveFields(env: Env, fields: seq<ArgField>, data: StepData, skipped: set<StepId>): Option<seq<ResolvedField>>
    decreases fields
  {
    if fields == [] then Some([])
    else
      match ResolveArgs(env, fields[0].arg, data, skipped)
      case None => None
      case Some(r) =>
        match ResolveFields(env, fields[1..], data, skipped)
        case None => None
        case Some(rs) => Some([ResolvedField(fields[0].key, r)] + rs)
  }

  /** `find_absent_ref_path`: where in the tree the first missing leaf sits. */
  function FindMissing(r: Resolved): Option<seq<PathPart>>
    decreases r
  {
    match r
    case Value(_) => None
    case Missing => Some([])
    case ResolvedList(items) => MissingItem(items, 0)
    case ResolvedObject(fields) => MissingField(fields)
  }

  function MissingItem(items: seq<Resolved>, i: nat): Option<seq<PathPart>>
    decreases items
  {
    if items == [] then None
    else
      match FindMissing(items[0])
      case Some(p) => Some([Index(i)] + p)
      case None => MissingItem(items[1..], i + 1)
  }

  function MissingField(fields: seq<ResolvedField>): Option<seq<PathPart>>
    decreases fields
  {
    if fields == [] then None
    else
      match FindMissing(fields[0].value)
      case Some(p) => Some([Key(fields[0].key)] + p)
      case None => MissingField(fields[1..])
  }

  /** `execute_mcp_tool_call_step`: None on a cascade, otherwise the envelope; the server is
      called only with fully resolved arguments. */
  function ExecuteMcpStep(env: Env, id: StepId, args: Arg, data: StepData, skipped: set<StepId>): Option<Envelope> {
    match ResolveArgs(env, args, data, skipped)
    case None => None
    case Some(r) =>
      match FindMissing(r)
      case Some(p) => Some(UnresolvedRef(p))
      case None => Some(env.call(id, r))
  }

  // --- The refs of a tree decide the dispatch -----------------------------------------

  ghost function Refs(arg: Arg): set<Ref>
    decreases arg
  {
    match arg
    case Literal(_) => {}
    case RefArg(ref) => {ref}
    case ArgList(items) => RefsOfItems(items)
    case ArgObject(fields) => RefsOfFields(fields)
  }

  ghost function RefsOfItems(items: seq<Arg>): set<Ref>
    decreases items
  {
    if items == [] then {} else Refs(items[0]) + RefsOfItems(items[1..])
  }

  ghost function RefsOfFields(fields: seq<ArgField>): set<Ref>
    decreases fields
  {
    if fields == [] then {} else Refs(fields[0].arg) + RefsOfFields(fields[1..])
  }

  ghost predicate NamesSkipped(refs: set<Ref>, skipped: set<StepId>) {
    exists r :: r in refs && r.sid in skipped
  }

  ghost predicate NamesAbsent(env: Env, refs: set<Ref>, data: StepData, skipped: set<StepId>) {
    exists r :: r in refs && ResolveRef(env, r, data, skipped) == Absent
  }

  lemma {:induction false} TreeDecided(env: Env, arg: Arg, data: StepData, skipped: set<StepId>)
    ensures var r := ResolveArgs(env, arg, data, skipped);
            && (r.None? <==> NamesSkipped(Refs(arg), skipped))
            && (r.Some? ==> (FindMissing(r.value).Some? <==> NamesAbsent(env, Refs(arg), data, skipped)))
    decreases arg
  {
    match arg
    case Literal(_) =>
    case RefArg(ref) => assert ref in Refs(arg);
    case ArgList(items) => ItemsDecided(env, items, data, skipped, 0);
    case ArgObject(fields) => FieldsDecided(env, fields, data, skipped);
  }

  lemma {:induction false} ItemsDecided(env: Env, items: seq<Arg>, data: StepData, skipped: set<StepId>, i: nat)
    ensures var r := ResolveItems(env, items, data, skipped);
            && (r.None? <==> NamesSkipped(RefsOfItems(items), skipped))
            && (r.Some? ==> (MissingItem(r.value, i).Some? <==> NamesAbsent(env, RefsOfItems(items), data, skipped)))
    decreases items
  {
    if items != [] {
      TreeDecided(env, items[0], data, skipped);
      ItemsDecided(env, items[1..], data, skipped, i + 1);
      NamesUnion(env, Refs(items[0]), RefsOfItems(items[1..]), data, skipped);
    }
  }

  lemma {:induction false} FieldsDecided(env: Env, fields: seq<ArgField>, data: StepData, skipped: set<StepId>)
    ensures var r := ResolveFields(env, fields, data, skipped);
            && (r.None? <==> NamesSkipped(RefsOfFields(fields), skipped))
            && (r.Some? ==> (MissingField(r.value).Some? <==> NamesAbsent(env, RefsOfFields(fields), data, skipped)))
    decreases fields
  {
    if fields != [] {
      TreeDecided(env, fields[0].arg, data, skipped);
      FieldsDecided(env, fields[1..], data, skipped);
      NamesUnion(env, Refs(fields[0].arg), RefsOfFields(fields[1..]), data, skipped);
    }
  }

  lemma NamesUnion(env: Env, a: set<Ref>, b: set<Ref>, data: StepData, skipped: set<StepId>)
    ensures NamesSkipped(a + b, skipped) <==> NamesSkipped(a, skipped) || NamesSkipped(b, skipped)
    ensures NamesAbsent(env, a + b, data, skipped) <==> NamesAbsent(env, a, data, skipped) || NamesAbsent(env, b, data, skipped)
  {
  }

  /** An MCP step cascades exactly when one of its refs names a skipped step; it is dispatched
      to the server exactly when every ref resolves. */
  lemma DispatchDecided(env: Env, id: StepId, args: Arg, data: StepData, skipped: set<StepId>)
    ensures var e := ExecuteMcpStep(env, id, args, data, skipped);
            && (e.None? <==> NamesSkipped(Refs(args), skipped))
            && (e.Some? && NamesAbsent(env, Refs(args), data, skipped) ==> e.value.UnresolvedRef?)
            && (e.Some? && !NamesAbsent(env, Refs(args), data, skipped) ==>
                  exists r :: ResolveArgs(env, args, data, skipped) == Some(r) && e.value == env.call(id, r))
  {
    TreeDecided(env, args, data, skipped);
  }

  // --- What reaches the server ------------------------------------------------------------------------

  ghost predicate NothingHeld(env: Env, data: StepData, ref: Ref) {
    forall v :: !Holds(env, data, ref, v)
  }

  /** r is the args tree with every ref replaced by the value it holds: literals are themselves, lists
      keep their length and order, mappings their keys and order. */
  ghost predicate Instance(env: Env, arg: Arg, r: Resolved, data: StepData)
    decreases arg
  {
    match arg
    case Literal(v) => r == Value(v)
    case RefArg(ref) => r.Value? && Holds(env, data, ref, r.value)
    case ArgList(items) =>
      r.ResolvedList? && |r.items| == |items| && forall i :: 0 <= i < |items| ==> Instance(env, items[i], r.items[i], data)
    case ArgObject(fields) =>
      && r.ResolvedObject? && |r.fields| == |fields|
      && forall i :: 0 <= i < |fields| ==> r.fields[i].key == fields[i].key && Instance(env, fields[i].arg, r.fields[i].value, data)
  }

  /** Some value can be put for every ref of the tree. */
  ghost predicate Complete(env: Env, arg: Arg, data: StepData) {
    exists r :: Instance(env, arg, r, data)
  }

  /** The path leads through the tree to a ref that holds nothing, past complete trees only. */
  ghost predicate LeadsToAbsent(env: Env, arg: Arg, path: seq<PathPart>, data: StepData)
    decreases arg
  {
    match arg
    case Literal(_) => false
    case RefArg(ref) => path == [] && NothingHeld(env, data, ref)
    case ArgList(items) =>
      path != [] && path[0].Index? && path[0].i < |items|
      && (forall k :: 0 <= k < path[0].i ==> Complete(env, items[k], data))
      && LeadsToAbsent(env, items[path[0].i], path[1..], data)
    case ArgObject(fields) =>
      path != [] && path[0].Key?
      && exists i :: 0 <= i < |fields| && fields[i].key == path[0].key
                     && (forall k :: 0 <= k < i ==> Complete(env, fields[k].arg, data))
                     && LeadsToAbsent(env, fields[i].arg, path[1..], data)
  }

  /** What resolution makes of a tree without skipped refs: an instance, or a tree in which the first
      missing leaf is where the first absent ref is. */
  ghost predicate ResolvedAs(env: Env, arg: Arg, r: Resolved, data: StepData) {
    match FindMissing(r)
    case None => Instance(env, arg, r, data)
    case Some(p) => LeadsToAbsent(env, arg, p, data)
  }

  lemma {:induction false} TreeResolved(env: Env, arg: Arg, data: StepData, skipped: set<StepId>)
    ensures var r := ResolveArgs(env, arg, data, skipped); r.Some? ==> ResolvedAs(env, arg, r.value, data)
    decreases arg
  {
    match arg
    case Literal(_) =>
    case RefArg(ref) => RefResolved(env, ref, data, skipped);
    case ArgList(items) =>
      ItemsResolved(env, items, data, skipped, 0);
      var rs := ResolveItems(env, items, data, skipped);
      if rs.Some? {
        ListResolved(env, items, rs.value, data);
      }
    case ArgObject(fields) =>
      FieldsResolved(env, fields, data, skipped);
      var rs := ResolveFields(env, fields, data, skipped);
      if rs.Some? {
        ObjectResolved(env, fields, rs.value, data);
      }
  }

  lemma RefResolved(env: Env, ref: Ref, data: StepData, skipped: set<StepId>)
    ensures var r := ResolveArgs(env, RefArg(ref), data, skipped); r.Some? ==> ResolvedAs(env, RefArg(ref), r.value, data)
  {
    hide ResolveRef, Holds;
    ResolveMeans(env, ref, data, skipped, Null);
    ResolveFinds(env, ref, data, skipped);
  }

  /** The resolved items, position by position, up to the first that misses a value. */
  ghost predicate ItemsAs(env: Env, items: seq<Arg>, rs: seq<Resolved>, data: StepData, i: nat) {
    |rs| == |items| &&
    match MissingItem(rs, i)
    case None => forall k :: 0 <= k < |items| ==> Instance(env, items[k], rs[k], data)
    case Some(p) =>
      p != [] && p[0].Index? && i <= p[0].i < i + |items|
      && (forall k :: 0 <= k < p[0].i - i ==> Complete(env, items[k], data))
      && LeadsToAbsent(env, items[p[0].i - i], p[1..], data)
  }

  lemma {:induction false} ItemsResolved(env: Env, items: seq<Arg>, data: StepData, skipped: set<StepId>, i: nat)
    ensures var rs := ResolveItems(env, items, data, skipped); rs.Some? ==> ItemsAs(env, items, rs.value, data, i)
    decreases items
  {
    hide Instance, LeadsToAbsent;
    var rs := ResolveItems(env, items, data, skipped);
    if items != [] && rs.Some? {
      TreeResolved(env, items[0], data, skipped);
      ItemsResolved(env, items[1..], data, skipped, i + 1);
      assert rs.value == [rs.value[0]] + rs.value[1..];
      ItemsCons(env, items, rs.value, data, i);
    }
  }

  lemma ItemsCons(env: Env, items: seq<Arg>, rs: seq<Resolved>, data: StepData, i: nat)
    requires items != [] && rs != [] && ResolvedAs(env, items[0], rs[0], data) && ItemsAs(env, items[1..], rs[1..], data, i + 1)
    ensures ItemsAs(env, items, rs, data, i)
  {
    hide Instance, LeadsToAbsent;
    if FindMissing(rs[0]).None? {
      assert Complete(env, items[0], data);
      match MissingItem(rs[1..], i + 1)
      case None =>
        forall k | 0 <= k < |items| ensures Instance(env, items[k], rs[k], data) {
          assert k > 0 ==> items[1..][k - 1] == items[k] && rs[1..][k - 1] == rs[k];
        }
      case Some(p) =>
        forall k | 0 <= k < p[0].i - i ensures Complete(env, items[k], data) {
          assert k > 0 ==> items[1..][k - 1] == items[k];
        }
    }
  }

  lemma ListResolved(env: Env, items: seq<Arg>, rs: seq<Resolved>, data: StepData)
    requires ItemsAs(env, items, rs, data, 0)
    ensures ResolvedAs(env, ArgList(items), ResolvedList(rs), data)
  {
  }

  ghost predicate FieldsAs(env: Env, fields: seq<ArgField>, rs: seq<ResolvedField>, data: StepData) {
    |rs| == |fields| && (forall k :: 0 <= k < |fields| ==> rs[k].key == fields[k].key) &&
    match MissingField(rs)
    case None => forall k :: 0 <= k < |fields| ==> Instance(env, fields[k].arg, rs[k].value, data)
    case Some(p) => AbsentField(env, fields, p, data)
  }

  ghost predicate AbsentField(env: Env, fields: seq<ArgField>, p: seq<PathPart>, data: StepData) {
    p != [] && p[0].Key? && exists i :: 0 <= i < |fields| && AbsentAt(env, fields, p, data, i)
  }

  ghost predicate AbsentAt(env: Env, fields: seq<ArgField>, p: seq<PathPart>, data: StepData, i: nat)
    requires i < |fields| && p != [] && p[0].Key?
  {
    && fields[i].key == p[0].key
    && (forall k :: 0 <= k < i ==> Complete(env, fields[k].arg, data))
    && LeadsToAbsent(env, fields[i].arg, p[1..], data)
  }

  lemma {:induction false} FieldsResolved(env: Env, fields: seq<ArgField>, data: StepData, skipped: set<StepId>)
    ensures var rs := ResolveFields(env, fields, data, skipped); rs.Some? ==> FieldsAs(env, fields, rs.value, data)
    decreases fields
  {
    hide Instance, LeadsToAbsent;
    var rs := ResolveFields(env, fields, data, skipped);
    if fields != [] && rs.Some? {
      TreeResolved(env, fields[0].arg, data, skipped);
      FieldsResolved(env, fields[1..], data, skipped);
      assert rs.value == [rs.value[0]] + rs.value[1..];
      FieldsCons(env, fields, rs.value, data);
    }
  }

  lemma FieldsCons(env: Env, fields: seq<ArgField>, rs: seq<ResolvedField>, data: StepData)
    requires fields != [] && rs != [] && rs[0].key == fields[0].key
    requires ResolvedAs(env, fields[0].arg, rs[0].value, data) && FieldsAs(env, fields[1..], rs[1..], data)
    ensures FieldsAs(env, fields, rs, data)
  {
    hide Instance, LeadsToAbsent;
    forall k | 0 <= k < |fields| ensures rs[k].key == fields[k].key {
      assert k > 0 ==> fields[1..][k - 1] == fields[k] && rs[1..][k - 1] == rs[k];
    }
    match FindMissing(rs[0].value)
    case Some(p) => assert AbsentAt(env, fields, [Key(rs[0].key)] + p, data, 0);
    case None =>
      assert Complete(env, fields[0].arg, data);
      match MissingField(rs[1..])
      case None =>
        forall k | 0 <= k < |fields| ensures Instance(env, fields[k].arg, rs[k].value, data) {
          assert k > 0 ==> fields[1..][k - 1] == fields[k] && rs[1..][k - 1] == rs[k];
        }
      case Some(p) =>
        var i :| 0 <= i < |fields[1..]| && AbsentAt(env, fields[1..], p, data, i);
        forall k | 0 <= k < i + 1 ensures Complete(env, fields[k].arg, data) {
          assert k > 0 ==> fields[1..][k - 1] == fields[k];
        }
        assert AbsentAt(env, fields, p, data, i + 1);
  }

  lemma ObjectResolved(env: Env, fields: seq<ArgField>, rs: seq<ResolvedField>, data: StepData)
    requires FieldsAs(env, fields, rs, data)
    ensures ResolvedAs(env, ArgObject(fields), ResolvedObject(rs), data)
  {
    match MissingField(rs)
    case None =>
    case Some(p) => var i :| 0 <= i < |fields| && AbsentAt(env, fields, p, data, i);
  }

  /** What an MCP step comes to when no ref names a skipped step: the server's answer to the args with
      every ref replaced by the value it holds, or, when some ref holds nothing, an error envelope
      with the path to the first that does not, and no call. */
  lemma DispatchMeans(env: Env, id: StepId, args: Arg, data: StepData, skipped: set<StepId>)
    ensures var e := ExecuteMcpStep(env, id, args, data, skipped);
            e.Some? ==>
              if Complete(env, args, data) then exists r :: Instance(env, args, r, data) && e.value == env.call(id, r)
              else e.value.UnresolvedRef? && LeadsToAbsent(env, args, e.value.path, data)
  {
    hide Instance, LeadsToAbsent;
    TreeResolved(env, args, data, skipped);
    var r := ResolveArgs(env, args, data, skipped);
    if r.Some? && FindMissing(r.value).Some? && Complete(env, args, data) {
      AbsentIsIncomplete(env, args, FindMissing(r.value).value, data);
    }
  }

  lemma {:induction false} AbsentIsIncomplete(env: Env, arg: Arg, path: seq<PathPart>, data: StepData)
    requires LeadsToAbsent(env, arg, path, data)
    ensures !Complete(env, arg, data)
    decreases arg
  {
    hide Holds;
    if Complete(env, arg, data) {
      var r :| Instance(env, arg, r, data);
      match arg
      case Literal(_) =>
      case RefArg(_) =>
      case ArgList(items) =>
        assert Instance(env, items[path[0].i], r.items[path[0].i], data);
        AbsentIsIncomplete(env, items[path[0].i], path[1..], data);
      case ArgObject(fields) =>
        var i :| 0 <= i < |fields| && fields[i].key == path[0].key
                 && (forall k :: 0 <= k < i ==> Complete(env, fields[k].arg, data))
                 && LeadsToAbsent(env, fields[i].arg, path[1..], data);
        assert Instance(env, fields[i].arg, r.fields[i].value, data);
        AbsentIsIncomplete(env, fields[i].arg, path[1..], data);
    }
  }
}
