/** Refs into step data and the engine's uninterpreted surroundings
    (megalos_server/tools.py lines 65-88). */
module References {
  import opened Options
  import opened Workflows

  datatype ResolvedField = ResolvedField(key: string, value: Resolved)

  /** An args tree after resolution; Missing is the absent-ref sentinel. */
  datatype Resolved =
    | Value(value: Json)
    | Missing
    | ResolvedList(items: seq<Resolved>)
    | ResolvedObject(fields: seq<ResolvedField>)

  datatype PathPart = Key(key: string) | Index(i: nat)

  type StepData = map<StepId, string>

  datatype Envelope = Success(value: Json) | ToolFailure(message: string) | UnresolvedRef(path: seq<PathPart>)

  /** What the engine takes from outside: JSON parsing and printing, Python equality of JSON
      values, JSON Schema validation, regular expressions, MCP servers, SHA-256, UTF-8. */
  datatype Env = Env(
    parse: string -> Option<Json>,
    equal: (Json, Json) -> bool,
    conforms: (Schema, string) -> bool,
    conformsArtifact: (Schema, string) -> bool,
    matches: (string, string) -> bool,
    call: (StepId, Resolved) -> Envelope,
    dumps: Envelope -> string,
    digest: Workflow -> string,
    bytes: string -> nat)

  datatype RefResult = Skipped | Absent | Found(value: Json)

  function Lookup(fields: seq<Field>, key: string): Option<Json> {
    if fields == [] then None
    else if fields[0].key == key then Some(fields[0].value)
    else Lookup(fields[1..], key)
  }

  function WalkPath(value: Json, path: seq<string>): (r: RefResult)
    ensures r != Skipped
    decreases |path|
  {
    if path == [] then Found(value)
    else if !value.Object? then Absent
    else
      match Lookup(value.fields, path[0])
      case None => Absent
      case Some(v) => WalkPath(v, path[1..])
  }

  /** `_resolve_ref` */
  function ResolveRef(env: Env, ref: Ref, data: StepData, skipped: set<StepId>): RefResult {
    if ref.sid in skipped then Skipped
    else if ref.sid !in data then Absent
    else if ref.path == [] then Found(Str(data[ref.sid]))
    else
      match env.parse(data[ref.sid])
      case None => Absent
      case Some(v) => WalkPath(v, ref.path)
  }

  // --- What a ref holds, without the resolver ---------------------------------------------------------

  /** The value an object has under a key; keys do not repeat, and of repeated ones the first counts. */
  ghost predicate HasKey(value: Json, key: string, v: Json) {
    value.Object? && exists i :: 0 <= i < |value.fields| && value.fields[i] == Field(key, v)
                                 && forall j :: 0 <= j < i ==> value.fields[j].key != key
  }

  /** A trail from a value along a path: one existing object key for every segment. */
  ghost predicate Trail(path: seq<string>, trail: seq<Json>) {
    |trail| == |path| + 1 && forall k :: 0 <= k < |path| ==> HasKey(trail[k], path[k], trail[k + 1])
  }

  ghost predicate Reaches(value: Json, path: seq<string>, v: Json) {
    exists trail :: Trail(path, trail) && trail[0] == value && trail[|path|] == v
  }

  /** The ref holds v: its step is stored, and v is the stored string itself, or what the path
      leads to in the parsed string. */
  ghost predicate Holds(env: Env, data: StepData, ref: Ref, v: Json) {
    ref.sid in data &&
    if ref.path == [] then v == Str(data[ref.sid])
    else exists parsed :: env.parse(data[ref.sid]) == Some(parsed) && Reaches(parsed, ref.path, v)
  }

  lemma {:induction false} LookupMeans(fields: seq<Field>, key: string, v: Json)
    ensures Lookup(fields, key) == Some(v) <==> HasKey(Object(fields), key, v)
  {
    if fields != [] {
      if fields[0].key == key {
        assert HasKey(Object(fields), key, v) <==> fields[0].value == v by {
          if fields[0].value == v {
            assert fields[0] == Field(key, v);
          }
        }
      } else {
        LookupMeans(fields[1..], key, v);
        if HasKey(Object(fields[1..]), key, v) {
          var i :| 0 <= i < |fields| - 1 && fields[1..][i] == Field(key, v) && forall j :: 0 <= j < i ==> fields[1..][j].key != key;
          assert fields[i + 1] == Field(key, v);
          assert forall j :: 0 <= j < i + 1 ==> fields[j].key != key by {
            forall j | 0 <= j < i + 1 ensures fields[j].key != key {
              assert j > 0 ==> fields[j] == fields[1..][j - 1];
            }
          }
        }
        if HasKey(Object(fields), key, v) {
          var i :| 0 <= i < |fields| && fields[i] == Field(key, v) && forall j :: 0 <= j < i ==> fields[j].key != key;
          assert fields[1..][i - 1] == Field(key, v);
          assert forall j :: 0 <= j < i - 1 ==> fields[1..][j].key != key;
        }
      }
    }
  }

  lemma {:induction false} WalkMeans(value: Json, path: seq<string>, v: Json)
    ensures WalkPath(value, path) == Found(v) <==> Reaches(value, path, v)
    decreases |path|
  {
    hide Lookup, HasKey;
    if path == [] {
      assert WalkPath(value, path) == Found(v) ==> Trail(path, [value]);
    } else {
      WalkStep(value, path, v);
      if WalkPath(value, path) == Found(v) {
        var next := Lookup(value.fields, path[0]).value;
        LookupMeans(value.fields, path[0], next);
        WalkMeans(next, path[1..], v);
        var rest :| Trail(path[1..], rest) && rest[0] == next && rest[|path| - 1] == v;
        TrailCons(value, path, rest);
        assert ([value] + rest)[|path|] == v;
      }
      if Reaches(value, path, v) {
        var trail :| Trail(path, trail) && trail[0] == value && trail[|path|] == v;
        TrailTail(path, trail);
        HasKeyIsLookup(value, path[0], trail[1]);
        assert trail[1..][|path| - 1] == v;
        WalkMeans(trail[1], path[1..], v);
      }
    }
  }

  lemma WalkStep(value: Json, path: seq<string>, v: Json)
    requires path != []
    ensures WalkPath(value, path) == Found(v) ==> value.Object? && Lookup(value.fields, path[0]).Some?
    ensures value.Object? && Lookup(value.fields, path[0]).Some? ==>
              WalkPath(value, path) == WalkPath(Lookup(value.fields, path[0]).value, path[1..])
  {
  }

  lemma HasKeyIsLookup(value: Json, key: string, v: Json)
    requires HasKey(value, key, v)
    ensures value.Object? && Lookup(value.fields, key) == Some(v)
  {
    LookupMeans(value.fields, key, v);
  }

  lemma TrailCons(value: Json, path: seq<string>, rest: seq<Json>)
    requires path != [] && Trail(path[1..], rest) && HasKey(value, path[0], rest[0])
    ensures Trail(path, [value] + rest)
  {
    hide HasKey;
    var trail := [value] + rest;
    forall k | 0 <= k < |path| ensures HasKey(trail[k], path[k], trail[k + 1]) {
      if k > 0 {
        assert HasKey(rest[k - 1], path[1..][k - 1], rest[k - 1 + 1]);
      }
    }
  }

  lemma TrailTail(path: seq<string>, trail: seq<Json>)
    requires path != [] && Trail(path, trail)
    ensures Trail(path[1..], trail[1..]) && HasKey(trail[0], path[0], trail[1])
  {
    hide HasKey;
    forall k | 0 <= k < |path[1..]| ensures HasKey(trail[1..][k], path[1..][k], trail[1..][k + 1]) {
      assert HasKey(trail[k + 1], path[k + 1], trail[k + 1 + 1]);
    }
  }

  /** The resolver tells a skipped step by its id, and otherwise finds exactly what the ref holds. */
  lemma ResolveMeans(env: Env, ref: Ref, data: StepData, skipped: set<StepId>, v: Json)
    ensures var r := ResolveRef(env, ref, data, skipped);
            && (r == Skipped <==> ref.sid in skipped)
            && (r == Found(v) <==> ref.sid !in skipped && Holds(env, data, ref, v))
  {
    hide WalkPath, Reaches;
    if ref.sid in data && ref.path != [] && env.parse(data[ref.sid]).Some? {
      WalkMeans(env.parse(data[ref.sid]).value, ref.path, v);
    }
  }

  /** ... and so it finds something exactly when the ref holds something, the same for every reader. */
  lemma ResolveFinds(env: Env, ref: Ref, data: StepData, skipped: set<StepId>)
    ensures var r := ResolveRef(env, ref, data, skipped);
            && (r.Found? <==> ref.sid !in skipped && exists v :: Holds(env, data, ref, v))
            && (r.Found? ==> forall v :: Holds(env, data, ref, v) <==> v == r.value)
  {
    hide ResolveRef, Holds;
    var r := ResolveRef(env, ref, data, skipped);
    if r.Found? {
      ResolveMeans(env, ref, data, skipped, r.value);
    }
    forall v ensures ref.sid !in skipped ==> (r == Found(v) <==> Holds(env, data, ref, v)) {
      ResolveMeans(env, ref, data, skipped, v);
    }
  }
}
