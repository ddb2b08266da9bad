/** The two tables of megalos_server/state.py as one value, and what each of its functions
    does to them. Session ids are fresh tokens, modelled by a counter; SQLite rows are map
    entries; a transaction is one step on the pair. */
module Tables {
  import opened Options
  import opened Workflows
  import opened References

  type Sid = nat

  datatype FrameKind = CallFrame | DigressionFrame

  /** A session_stack row; its key is the framed session. `callStep` is the overloaded
      column: the parent's call-step for a call, paused_at_step for a digression. */
  datatype Frame = Frame(root: Sid, depth: nat, kind: FrameKind, callStep: Option<StepId>)

  /** A sessions row. `called` and `parent` are the legacy link columns. */
  datatype Session = Session(
    workflowType: Name,
    currentStep: StepId,
    stepData: StepData,
    retries: map<StepId, nat>,
    visits: map<StepId, nat>,
    escalation: Option<string>,
    checkpoints: map<StepId, map<string, string>>,
    updatedAt: int,
    completedAt: Option<int>,
    called: Option<Sid>,
    parent: Option<Sid>,
    fingerprint: string)

  datatype Db = Db(sessions: map<Sid, Session>, frames: map<Sid, Frame>, nextSid: Sid)

  // --- Accessors --------------------------------------------------------------------

  type Frames = map<Sid, Frame>

  /** Root and depth of a session: unframed sessions are roots at depth 0. */
  function RootIn(frames: Frames, s: Sid): Sid {
    if s in frames then frames[s].root else s
  }

  function DepthIn(frames: Frames, s: Sid): nat {
    if s in frames then frames[s].depth else 0
  }

  predicate FrameIn(frames: Frames, f: Sid, root: Sid, depth: int) {
    f in frames && frames[f].root == root && frames[f].depth == depth
  }

  /** A row the query `root_session_id = ? AND depth = ?` may answer. */
  ghost function PickFrame(frames: Frames, root: Sid, depth: int): (r: Option<Sid>)
    ensures r.Some? ==> FrameIn(frames, r.value, root, depth)
    ensures r.None? ==> forall f :: f in frames ==> !FrameIn(frames, f, root, depth)
  {
    if exists f :: f in frames && FrameIn(frames, f, root, depth) then
      var f :| f in frames && FrameIn(frames, f, root, depth);
      Some(f)
    else None
  }

  function RootOf(db: Db, s: Sid): Sid { RootIn(db.frames, s) }

  function DepthOf(db: Db, s: Sid): nat { DepthIn(db.frames, s) }

  predicate FrameAt(db: Db, f: Sid, root: Sid, depth: int) {
    FrameIn(db.frames, f, root, depth)
  }

  predicate IsTopFrame(db: Db, s: Sid, f: Sid) {
    FrameAt(db, f, RootOf(db, s), DepthOf(db, s) + 1)
  }

  /** `top_frame_for`: a frame one level above s. */
  ghost function TopFrame(db: Db, s: Sid): (r: Option<Sid>)
    ensures r.Some? ==> IsTopFrame(db, s, r.value)
    ensures r.None? ==> forall f :: f in db.frames ==> !IsTopFrame(db, s, f)
  {
    PickFrame(db.frames, RootOf(db, s), DepthOf(db, s) + 1)
  }

  /** `parent_of`: the frame (or root) one level below s. */
  ghost function ParentOf(db: Db, s: Sid): Option<Sid> {
    if s !in db.frames then None
    else if db.frames[s].depth == 1 then Some(db.frames[s].root)
    else PickFrame(db.frames, db.frames[s].root, db.frames[s].depth - 1)
  }

  function FramesOf(db: Db, root: Sid): set<Sid> {
    set f | f in db.frames && db.frames[f].root == root
  }

  /** `stack_depth` */
  function StackDepth(db: Db, root: Sid): nat {
    |FramesOf(db, root)|
  }

  function ActiveIn(sessions: map<Sid, Session>): set<Sid> {
    set s | s in sessions && sessions[s].currentStep != COMPLETE
  }

  /** `count_active` */
  function CountActive(db: Db): nat {
    |ActiveIn(db.sessions)|
  }

  // --- Writes -----------------------------------------------------------------------

  /** An UPDATE of one sessions row; no row, no change. */
  function WithRow(db: Db, s: Sid, row: Session): Db {
    db.(sessions := db.sessions[s := row])
  }

  function SetStep(db: Db, s: Sid, step: StepId, now: int): Db {
    if s !in db.sessions then db
    else
      var row := db.sessions[s];
      WithRow(db, s, row.(currentStep := step, updatedAt := now,
                          completedAt := if step == COMPLETE then Some(now) else row.completedAt))
  }

  function SetData(db: Db, s: Sid, data: StepData, now: int): Db {
    if s !in db.sessions then db
    else WithRow(db, s, db.sessions[s].(stepData := data, updatedAt := now))
  }

  /** update_session with both columns. */
  function SetStepAndData(db: Db, s: Sid, step: StepId, data: StepData, now: int): Db {
    SetData(SetStep(db, s, step, now), s, data, now)
  }

  function CountOf(counts: map<StepId, nat>, step: StepId): nat {
    if step in counts then counts[step] else 0
  }

  function IncVisit(db: Db, s: Sid, step: StepId, now: int): Db {
    if s !in db.sessions then db
    else
      var row := db.sessions[s];
      WithRow(db, s, row.(visits := row.visits[step := CountOf(row.visits, step) + 1], updatedAt := now))
  }

  function IncVisits(db: Db, s: Sid, steps: seq<StepId>, now: int): Db {
    if steps == [] then db
    else IncVisit(IncVisits(db, s, steps[..|steps| - 1], now), s, steps[|steps| - 1], now)
  }

  function IncRetry(db: Db, s: Sid, step: StepId, now: int): Db {
    if s !in db.sessions then db
    else
      var row := db.sessions[s];
      WithRow(db, s, row.(retries := row.retries[step := CountOf(row.retries, step) + 1], updatedAt := now))
  }

  function SetEscalation(db: Db, s: Sid, reason: string, now: int): Db {
    if s !in db.sessions then db
    else WithRow(db, s, db.sessions[s].(escalation := Some(reason), updatedAt := now))
  }

  function StoreArtifact(db: Db, s: Sid, step: StepId, artifact: string, content: string, now: int): Db {
    if s !in db.sessions then db
    else
      var row := db.sessions[s];
      var ofStep := if step in row.checkpoints then row.checkpoints[step] else map[];
      WithRow(db, s, row.(checkpoints := row.checkpoints[step := ofStep[artifact := content]], updatedAt := now))
  }

  /** `invalidate_steps_after` and `clear_step_data_key`: dropping entries of step_data. */
  function DropData(db: Db, s: Sid, steps: set<StepId>, now: int): Db {
    if s !in db.sessions then db
    else SetData(db, s, db.sessions[s].stepData - steps, now)
  }

  /** Rows of both tables for these sessions go. */
  function Remove(db: Db, victims: set<Sid>): Db {
    db.(sessions := db.sessions - victims, frames := db.frames - victims)
  }

  /** `delete_session`: raises when there is no row, and then the frame stays. */
  function DeleteSession(db: Db, s: Sid): Db {
    if s in db.sessions then Remove(db, {s}) else db
  }

  /** `set_called_session` with a child: link it and stamp the child's frame. */
  function LinkCalled(db: Db, parent: Sid, child: Sid, callStep: StepId, now: int): Db {
    if parent !in db.sessions then db
    else
      var db1 := WithRow(db, parent, db.sessions[parent].(called := Some(child), updatedAt := now));
      if child in db1.frames
      then db1.(frames := db1.frames[child := db1.frames[child].(callStep := Some(callStep))])
      else db1
  }

  /** `set_called_session(parent, None)`: clear the link and drop the frames one level above. */
  function ClearCalled(db: Db, parent: Sid, now: int): Db {
    if parent !in db.sessions then db
    else
      WithRow(db, parent, db.sessions[parent].(called := None, updatedAt := now))
      .(frames := map f | f in db.frames && !IsTopFrame(db, parent, f) :: db.frames[f])
  }

  // --- create_session ------------------------------------------------------------------

  /** Eviction order: complete sessions first, then COALESCE(completed_at, updated_at). */
  function Age(row: Session): int {
    match row.completedAt
    case Some(t) => t
    case None => row.updatedAt
  }

  predicate EvictsBefore(a: Session, b: Session) {
    if (a.currentStep == COMPLETE) != (b.currentStep == COMPLETE) then a.currentStep == COMPLETE
    else Age(a) < Age(b)
  }

  /** How many rows must go so that one more fits under the cap. */
  function EvictionCount(db: Db, cap: int): nat {
    if |db.sessions| >= cap then |db.sessions| - (cap - 1) else 0
  }

  /** A possible answer of the eviction query: the right number of rows (all of them when the
      limit exceeds the table), none of them after a row that stays. */
  ghost predicate Victims(db: Db, cap: int, victims: set<Sid>) {
    && victims <= db.sessions.Keys
    && |victims| == (if EvictionCount(db, cap) <= |db.sessions| then EvictionCount(db, cap) else |db.sessions|)
    && forall v, k :: v in victims && k in db.sessions && k !in victims ==> !EvictsBefore(db.sessions[k], db.sessions[v])
  }

  function NewSession(workflowType: Name, step: StepId, parent: Option<Sid>, fingerprint: string, now: int): Session {
    Session(workflowType, step, map[], map[], map[], None, map[], now, None, None, parent, fingerprint)
  }

  /** Eviction and the new root row. */
  function CreateRoot(db: Db, victims: set<Sid>, workflowType: Name, step: StepId, fingerprint: string, now: int): Db {
    var db1 := Remove(db, victims);
    Db(db1.sessions[db.nextSid := NewSession(workflowType, step, None, fingerprint, now)], db1.frames, db.nextSid + 1)
  }

  /** The depth cap of a push, read after the eviction and inside the same transaction. */
  predicate PushFull(db: Db, victims: set<Sid>, parent: Sid, maxDepth: Option<nat>) {
    var db1 := Remove(db, victims);
    maxDepth.Some? && StackDepth(db1, RootOf(db1, parent)) >= maxDepth.value
  }

  /** Eviction, the new row and its frame one level above the parent; StackFull rolls all of
      it back. */
  function CreateChild(db: Db, victims: set<Sid>, workflowType: Name, step: StepId, parent: Sid, kind: FrameKind,
                       callStep: Option<StepId>, maxDepth: Option<nat>, fingerprint: string, now: int): Db
  {
    if PushFull(db, victims, parent, maxDepth) then db
    else
      var db1 := Remove(db, victims);
      Db(db1.sessions[db.nextSid := NewSession(workflowType, step, Some(parent), fingerprint, now)],
         db1.frames[db.nextSid := Frame(RootOf(db1, parent), DepthOf(db1, parent) + 1, kind, callStep)],
         db.nextSid + 1)
  }

  // --- What a write leaves alone --------------------------------------------------------

  /** Rows, frames, links, types and fingerprints agree; only the payload columns may differ. */
  ghost predicate SameShape(a: Db, b: Db) {
    && a.sessions.Keys == b.sessions.Keys && a.frames == b.frames && a.nextSid == b.nextSid
    && forall s :: s in a.sessions ==>
         && a.sessions[s].called == b.sessions[s].called && a.sessions[s].parent == b.sessions[s].parent
         && a.sessions[s].workflowType == b.sessions[s].workflowType
         && a.sessions[s].fingerprint == b.sessions[s].fingerprint
  }

  /** Every session but s keeps its whole row. */
  ghost predicate OthersSame(a: Db, b: Db, s: Sid) {
    forall o :: o in a.sessions && o != s ==> o in b.sessions && b.sessions[o] == a.sessions[o]
  }
}
