/** Interleavings of megalos_server/db.py transactions: threads take read-ahead checks freely,
    but a BEGIN IMMEDIATE transaction holds the write lock from its first read to its commit or
    rollback. Readers outside see committed tables only. */
module Transactions {
  import opened Options
  import opened Workflows
  import opened References
  import opened Tables
  import opened Sequences

  /** The writes of state.py that threads race on. */
  datatype Op =
    | Visit(s: Sid, step: StepId)
    | Retry(s: Sid, step: StepId)
    | Update(s: Sid, step: StepId, data: StepData)
    | Drop(s: Sid)
    | Root(cap: int, name: Name, first: StepId, fingerprint: string)
    | Push(cap: int, name: Name, first: StepId, parent: Sid, kind: FrameKind, callStep: Option<StepId>, maxDepth: nat, fingerprint: string)

  predicate IsIncrement(op: Op) {
    op.Visit? || op.Retry?
  }

  /** A committed operation, with the sessions it evicted and its clock. */
  datatype Entry = Entry(op: Op, victims: set<Sid>, now: int)

  /** Where a thread is in its operation; `base` is the committed tables it began on, `work` its
      own uncommitted ones. */
  datatype Phase =
    | Idle
    | Checked(op: Op)
    | Begun(op: Op, base: Db, now: int)
    | CountRead(op: Op, base: Db, now: int, count: nat)
    | RowInserted(op: Op, base: Db, now: int, victims: set<Sid>, work: Db)
    | Written(op: Op, base: Db, now: int, victims: set<Sid>, work: Db)

  type Thread = nat

  datatype State = State(db: Db, lock: Option<Thread>, threads: map<Thread, Phase>, log: seq<Entry>)

  // --- What an operation does when it runs alone ------------------------------------------------

  function Effect(db: Db, e: Entry): Db {
    match e.op
    case Visit(s, step) => IncVisit(db, s, step, e.now)
    case Retry(s, step) => IncRetry(db, s, step, e.now)
    case Update(s, step, data) => SetStepAndData(db, s, step, data, e.now)
    case Drop(s) => DeleteSession(db, s)
    case Root(_, name, first, fp) => CreateRoot(db, e.victims, name, first, fp, e.now)
    case Push(_, name, first, p, kind, callStep, maxDepth, fp) =>
      CreateChild(db, e.victims, name, first, p, kind, callStep, Some(maxDepth), fp, e.now)
  }

  function Replay(db: Db, log: seq<Entry>): Db {
    if log == [] then db else Effect(Replay(db, log[..|log| - 1]), log[|log| - 1])
  }

  // --- The steps of a thread ------------------------------------------------------------------------

  function CountIn(db: Db, op: Op): nat
    requires IsIncrement(op)
  {
    if op.s !in db.sessions then 0
    else CountOf(if op.Visit? then db.sessions[op.s].visits else db.sessions[op.s].retries, op.step)
  }

  /** The UPDATE of an increment, from the count read before it. */
  function WithCount(db: Db, op: Op, count: nat, now: int): Db
    requires IsIncrement(op) && op.s in db.sessions
  {
    var row := db.sessions[op.s];
    WithRow(db, op.s, if op.Visit? then row.(visits := row.visits[op.step := count + 1], updatedAt := now)
                      else row.(retries := row.retries[op.step := count + 1], updatedAt := now))
  }

  /** The tables after the eviction and the INSERT into sessions. */
  function WithNewRow(db: Db, op: Op, victims: set<Sid>, now: int): Db
    requires op.Root? || op.Push?
  {
    var left := Remove(db, victims);
    var parent := if op.Push? then Some(op.parent) else None;
    Db(left.sessions[db.nextSid := NewSession(op.name, op.first, parent, op.fingerprint, now)], left.frames, db.nextSid + 1)
  }

  /** The frame INSERT of a push. */
  function WithNewFrame(work: Db, op: Op, sid: Sid): Db
    requires op.Push?
  {
    work.(frames := work.frames[sid := Frame(RootOf(work, op.parent), DepthOf(work, op.parent) + 1, op.kind, op.callStep)])
  }

  function To(a: State, t: Thread, p: Phase): State {
    a.(threads := a.threads[t := p])
  }

  /** ROLLBACK, on an exception: the lock is free and the committed tables are as they were. */
  function RolledBack(a: State, t: Thread): State {
    a.(threads := a.threads[t := Idle], lock := None)
  }

  ghost predicate InTransaction(p: Phase) {
    !p.Idle? && !p.Checked?
  }

  /** One step of thread t. The read-ahead checks look at whatever is committed when they run and
      hold no lock; what they saw may be stale by the time of the BEGIN. */
  ghost predicate Step(a: State, b: State, t: Thread) {
    t in a.threads &&
    match a.threads[t]
    case Idle =>
      exists op :: b == To(a, t, Checked(op)) && (op.Push? ==> StackDepth(a.db, RootOf(a.db, op.parent)) < op.maxDepth)
    case Checked(op) =>
      b == To(a, t, Idle)
      || (a.lock == None && exists now :: b == To(a, t, Begun(op, a.db, now)).(lock := Some(t)))
    case Begun(op, base, now) =>
      b == RolledBack(a, t) || FirstWrite(a, b, t, op, base, now)
    case CountRead(op, base, now, count) =>
      b == RolledBack(a, t)
      || (IsIncrement(op) && op.s in base.sessions
          && b == To(a, t, Written(op, base, now, {}, WithCount(base, op, count, now))))
    case RowInserted(op, base, now, victims, work) =>
      b == RolledBack(a, t)
      || (op.Root? && b == To(a, t, Written(op, base, now, victims, work)))
      || (op.Push? && StackDepth(work, RootOf(work, op.parent)) < op.maxDepth
          && b == To(a, t, Written(op, base, now, victims, WithNewFrame(work, op, base.nextSid))))
    case Written(op, base, now, victims, work) =>
      b == RolledBack(a, t)
      || b == RolledBack(a, t).(db := work, log := a.log + [Entry(op, victims, now)])
  }

  ghost predicate FirstWrite(a: State, b: State, t: Thread, op: Op, base: Db, now: int) {
    match op
    case Visit(s, step) => s in base.sessions && b == To(a, t, CountRead(op, base, now, CountIn(base, op)))
    case Retry(s, step) => s in base.sessions && b == To(a, t, CountRead(op, base, now, CountIn(base, op)))
    case Update(s, step, data) =>
      s in base.sessions && b == To(a, t, Written(op, base, now, {}, SetStepAndData(base, s, step, data, now)))
    case Drop(s) => s in base.sessions && b == To(a, t, Written(op, base, now, {}, Remove(base, {s})))
    case _ =>
      exists victims :: Victims(base, op.cap, victims) && b == To(a, t, RowInserted(op, base, now, victims, WithNewRow(base, op, victims, now)))
  }

  // --- The lock makes every committed operation atomic -------------------------------------------------

  /** What a thread inside a transaction has prepared is the operation run alone on the tables it
      began on, as far as it got. */
  ghost predicate Prepared(p: Phase) {
    match p
    case CountRead(op, base, _, count) => IsIncrement(op) && op.s in base.sessions && count == CountIn(base, op)
    case RowInserted(op, base, now, victims, work) => (op.Root? || op.Push?) && work == WithNewRow(base, op, victims, now)
    case Written(op, base, now, victims, work) =>
      work == Effect(base, Entry(op, victims, now)) && (IsIncrement(op) ==> op.s in base.sessions)
    case _ => true
  }

  /** Exactly the lock holder is inside a transaction, and it began on the committed tables. */
  ghost predicate LockHeld(a: State) {
    forall t :: t in a.threads ==>
      && (InTransaction(a.threads[t]) <==> a.lock == Some(t))
      && (InTransaction(a.threads[t]) ==> a.threads[t].base == a.db && Prepared(a.threads[t]))
  }

  lemma CountedUpdate(db: Db, op: Op, now: int)
    requires IsIncrement(op) && op.s in db.sessions
    ensures WithCount(db, op, CountIn(db, op), now) == Effect(db, Entry(op, {}, now))
  {
  }

  lemma DepthSeen(db: Db, op: Op, victims: set<Sid>, now: int)
    requires op.Push?
    ensures var work := WithNewRow(db, op, victims, now);
            StackDepth(work, RootOf(work, op.parent)) >= op.maxDepth <==> PushFull(db, victims, op.parent, Some(op.maxDepth))
  {
    var work, left := WithNewRow(db, op, victims, now), Remove(db, victims);
    assert FramesOf(work, RootOf(work, op.parent)) == FramesOf(left, RootOf(left, op.parent));
  }

  lemma FramedPush(db: Db, op: Op, victims: set<Sid>, now: int)
    requires op.Push? && !PushFull(db, victims, op.parent, Some(op.maxDepth))
    ensures WithNewFrame(WithNewRow(db, op, victims, now), op, db.nextSid) == Effect(db, Entry(op, victims, now))
  {
  }

  lemma StepPrepares(a: State, b: State, t: Thread)
    requires LockHeld(a) && Step(a, b, t)
    ensures t in b.threads && Prepared(b.threads[t])
  {
    hide CreateChild, CreateRoot, PushFull, WithNewFrame, WithNewRow, StackDepth, Victims;
    match a.threads[t]
    case CountRead(op, base, now, count) => CountedUpdate(base, op, now);
    case RowInserted(op, base, now, victims, work) =>
      if op.Push? {
        DepthSeen(base, op, victims, now);
        if !PushFull(base, victims, op.parent, Some(op.maxDepth)) {
          FramedPush(base, op, victims, now);
        }
      } else {
        InsertedRoot(base, op, victims, now);
      }
    case _ =>
  }

  lemma InsertedRoot(db: Db, op: Op, victims: set<Sid>, now: int)
    requires op.Root?
    ensures WithNewRow(db, op, victims, now) == Effect(db, Entry(op, victims, now))
  {
  }

  lemma OthersWait(a: State, b: State, t: Thread)
    requires Step(a, b, t)
    ensures b.threads.Keys == a.threads.Keys && forall u :: u in a.threads && u != t ==> b.threads[u] == a.threads[u]
  {
    hide WithNewFrame, WithNewRow, WithCount, StackDepth, Victims, SetStepAndData, Remove;
  }

  /** Threads other than the one that steps keep their phase; the tables change at a commit only,
      and to the operation's effect on the tables committed before, which hold the row of an
      increment. */
  lemma StepKeepsLock(a: State, b: State, t: Thread)
    requires LockHeld(a) && Step(a, b, t)
    ensures LockHeld(b)
    ensures (b.db == a.db && b.log == a.log)
            || (|b.log| == |a.log| + 1 && b.log[..|a.log|] == a.log && b.db == Effect(a.db, b.log[|a.log|])
                && (IsIncrement(b.log[|a.log|].op) ==> b.log[|a.log|].op.s in a.db.sessions))
  {
    hide Effect, Prepared, WithNewFrame, WithNewRow, WithCount, StackDepth, Victims, SetStepAndData, Remove;
    StepPrepares(a, b, t);
    if a.threads[t].Written? {
      WrittenIsEffect(a, t);
    }
    OthersWait(a, b, t);
  }

  lemma WrittenIsEffect(a: State, t: Thread)
    requires LockHeld(a) && t in a.threads && a.threads[t].Written?
    ensures var p := a.threads[t]; p.base == a.db && p.work == Effect(a.db, Entry(p.op, p.victims, p.now))
                                   && (IsIncrement(p.op) ==> p.op.s in a.db.sessions)
  {
  }

  /** A transaction that does not commit leaves both tables, evictions included, as they were. */
  lemma RollbackLeavesTables(a: State, b: State, t: Thread)
    requires Step(a, b, t) && b.log == a.log
    ensures b.db == a.db
  {
    assert a.threads[t].Written? ==> |a.log + [Entry(a.threads[t].op, a.threads[t].victims, a.threads[t].now)]| != |a.log|;
  }

  /** A push that finds the stack full inside its transaction can only roll back. */
  lemma FullPushRollsBack(a: State, b: State, t: Thread)
    requires LockHeld(a) && Step(a, b, t) && a.threads[t].RowInserted? && a.threads[t].op.Push?
    requires PushFull(a.db, a.threads[t].victims, a.threads[t].op.parent, Some(a.threads[t].op.maxDepth))
    ensures b == RolledBack(a, t)
  {
    var p := a.threads[t];
    DepthSeen(a.db, p.op, p.victims, p.now);
  }

  // --- Runs ------------------------------------------------------------------------------------------------

  ghost predicate Run(states: seq<State>, ts: seq<Thread>) {
    |states| == |ts| + 1 && forall i :: 0 <= i < |ts| ==> Step(states[i], states[i + 1], ts[i])
  }

  ghost predicate Fresh(a: State) {
    a.lock == None && a.log == [] && forall t :: t in a.threads ==> a.threads[t] == Idle
  }

  /** Every committed increment found its row in the tables committed before it. */
  ghost predicate LiveLog(db: Db, log: seq<Entry>) {
    forall i :: 0 <= i < |log| && IsIncrement(log[i].op) ==> log[i].op.s in Replay(db, log[..i]).sessions
  }

  lemma LiveSnoc(db: Db, log: seq<Entry>)
    requires log != [] && LiveLog(db, log[..|log| - 1])
    requires var e := log[|log| - 1]; IsIncrement(e.op) ==> e.op.s in Replay(db, log[..|log| - 1]).sessions
    ensures LiveLog(db, log)
  {
    hide Replay;
    var before := log[..|log| - 1];
    forall i | 0 <= i < |log| && IsIncrement(log[i].op) ensures log[i].op.s in Replay(db, log[..i]).sessions {
      if i < |before| {
        assert before[i] == log[i] && before[..i] == log[..i];
      }
    }
  }

  /** Over every interleaving the committed tables are the committed operations run one after the
      other, in the order of their commits, no increment among them without its row. */
  lemma {:induction false} RunsAreSerial(states: seq<State>, ts: seq<Thread>, k: nat)
    requires Run(states, ts) && Fresh(states[0]) && k <= |ts|
    ensures LockHeld(states[k]) && states[k].db == Replay(states[0].db, states[k].log) && LiveLog(states[0].db, states[k].log)
  {
    hide Step, LockHeld, Effect, LiveLog;
    if k == 0 {
      NothingLogged(states[0].db);
      FreshIsHeld(states[0]);
    } else {
      RunsAreSerial(states, ts, k - 1);
      assert Step(states[k - 1], states[k - 1 + 1], ts[k - 1]);
      StepKeepsLock(states[k - 1], states[k], ts[k - 1]);
      var log := states[k].log;
      if log != states[k - 1].log {
        assert log[..|log| - 1] == states[k - 1].log;
        LiveSnoc(states[0].db, log);
      }
    }
  }

  lemma NothingLogged(db: Db)
    ensures LiveLog(db, [])
  {
  }

  lemma FreshIsHeld(a: State)
    requires Fresh(a)
    ensures LockHeld(a)
  {
  }

  // --- The depth cap -----------------------------------------------------------------------------------------

  ghost predicate WithinDepth(db: Db, max: nat) {
    forall r :: StackDepth(db, r) <= max
  }

  ghost predicate PushesCapped(log: seq<Entry>, max: nat) {
    forall e :: e in log && e.op.Push? ==> e.op.maxDepth <= max
  }

  lemma FewerFrames(a: Db, b: Db, r: Sid)
    requires forall f :: f in b.frames ==> f in a.frames && b.frames[f].root == a.frames[f].root
    ensures StackDepth(b, r) <= StackDepth(a, r)
  {
    SubsetSize(FramesOf(b, r), FramesOf(a, r));
  }

  lemma EffectWithinDepth(db: Db, e: Entry, max: nat)
    requires WithinDepth(db, max) && (e.op.Push? ==> e.op.maxDepth <= max)
    ensures WithinDepth(Effect(db, e), max)
  {
    hide StackDepth;
    var b := Effect(db, e);
    forall r ensures StackDepth(b, r) <= max {
      if e.op.Push? && !PushFull(db, e.victims, e.op.parent, Some(e.op.maxDepth)) {
        PushedDepth(db, e, r);
        FewerFrames(db, Remove(db, e.victims), r);
      } else {
        FewerFrames(db, b, r);
      }
    }
  }

  lemma PushedDepth(db: Db, e: Entry, r: Sid)
    requires e.op.Push? && !PushFull(db, e.victims, e.op.parent, Some(e.op.maxDepth))
    ensures StackDepth(Effect(db, e), r) <= StackDepth(Remove(db, e.victims), r)
            || StackDepth(Effect(db, e), r) <= e.op.maxDepth
  {
    var left, b := Remove(db, e.victims), Effect(db, e);
    SubsetSize(FramesOf(b, r), FramesOf(left, r) + {db.nextSid});
    if r != RootOf(left, e.op.parent) {
      SubsetSize(FramesOf(b, r), FramesOf(left, r));
    }
  }

  lemma {:induction false} ReplayWithinDepth(db: Db, log: seq<Entry>, max: nat)
    requires WithinDepth(db, max) && PushesCapped(log, max)
    ensures WithinDepth(Replay(db, log), max)
  {
    if log != [] {
      ReplayWithinDepth(db, log[..|log| - 1], max);
      EffectWithinDepth(Replay(db, log[..|log| - 1]), log[|log| - 1], max);
    }
  }

  /** Whatever the read-ahead checks saw, when all frames come from pushes capped at max no root
      ever has more than max frames. */
  lemma DepthCapHolds(states: seq<State>, ts: seq<Thread>, k: nat, max: nat)
    requires Run(states, ts) && Fresh(states[0]) && k <= |ts|
    requires WithinDepth(states[0].db, max) && PushesCapped(states[k].log, max)
    ensures WithinDepth(states[k].db, max)
  {
    RunsAreSerial(states, ts, k);
    ReplayWithinDepth(states[0].db, states[k].log, max);
  }

  // --- No increment is lost --------------------------------------------------------------------------------------

  /** How many committed operations equal op. */
  function Commits(log: seq<Entry>, op: Op): nat {
    if log == [] then 0 else Commits(log[..|log| - 1], op) + (if log[|log| - 1].op == op then 1 else 0)
  }

  ghost predicate IdsIssued(db: Db) {
    forall s :: s in db.sessions ==> s < db.nextSid
  }

  /** A row that was there, and a row that is new: its id is the next one and its counts are 0. */
  lemma EffectCounts(db: Db, e: Entry, op: Op)
    requires IdsIssued(db) && IsIncrement(op) && op.s in Effect(db, e).sessions
    ensures op.s in db.sessions ==> CountIn(Effect(db, e), op) == CountIn(db, op) + (if e.op == op then 1 else 0)
    ensures op.s !in db.sessions ==> op.s == db.nextSid && CountIn(Effect(db, e), op) == 0 && !IsIncrement(e.op)
  {
    hide PushFull;
  }

  lemma {:induction false} ReplayIssues(db: Db, log: seq<Entry>)
    requires IdsIssued(db)
    ensures IdsIssued(Replay(db, log)) && Replay(db, log).nextSid >= db.nextSid
  {
    hide PushFull;
    if log != [] {
      ReplayIssues(db, log[..|log| - 1]);
    }
  }

  /** No increment of a session is committed before the session is there. */
  lemma {:induction false} NoneBefore(db: Db, log: seq<Entry>, op: Op)
    requires IdsIssued(db) && LiveLog(db, log) && IsIncrement(op) && op.s >= Replay(db, log).nextSid
    ensures Commits(log, op) == 0
  {
    if log != [] {
      var before := log[..|log| - 1];
      ReplayIssues(db, before);
      EffectIssues(Replay(db, before), log[|log| - 1]);
      LiveBefore(db, log);
      NoneBefore(db, before, op);
    }
  }

  lemma EffectIssues(db: Db, e: Entry)
    ensures Effect(db, e).nextSid >= db.nextSid
  {
    hide PushFull;
  }

  lemma LiveBefore(db: Db, log: seq<Entry>)
    requires log != [] && LiveLog(db, log)
    ensures LiveLog(db, log[..|log| - 1])
    ensures var e := log[|log| - 1]; IsIncrement(e.op) ==> e.op.s in Replay(db, log[..|log| - 1]).sessions
  {
    hide Replay;
    var before := log[..|log| - 1];
    forall i | 0 <= i < |before| && IsIncrement(before[i].op) ensures before[i].op.s in Replay(db, before[..i]).sessions {
      assert before[i] == log[i] && before[..i] == log[..i];
    }
  }

  lemma {:induction false} ReplayCounts(db: Db, log: seq<Entry>, op: Op)
    requires IdsIssued(db) && LiveLog(db, log) && IsIncrement(op) && op.s in Replay(db, log).sessions
    ensures CountIn(Replay(db, log), op) == CountIn(db, op) + Commits(log, op)
    ensures op.s < db.nextSid ==> op.s in db.sessions
  {
    hide Effect, CountIn, LiveLog;
    if log != [] {
      var before, e := log[..|log| - 1], log[|log| - 1];
      ReplayIssues(db, before);
      EffectCounts(Replay(db, before), e, op);
      LiveBefore(db, log);
      if op.s in Replay(db, before).sessions {
        ReplayCounts(db, before, op);
      } else {
        NoneBefore(db, before, op);
        NotYetCounted(db, op);
      }
    }
  }

  lemma NotYetCounted(db: Db, op: Op)
    requires IsIncrement(op) && IdsIssued(db) && op.s >= db.nextSid
    ensures CountIn(db, op) == 0
  {
  }

  /** Over every interleaving the visit count of every session that is there, created before the
      run or during it, is its count at the start (0 for a session that was not there) plus the
      number of committed visit increments, and likewise for retries. */
  lemma NoIncrementLost(states: seq<State>, ts: seq<Thread>, k: nat, op: Op)
    requires Run(states, ts) && Fresh(states[0]) && IdsIssued(states[0].db) && k <= |ts|
    requires IsIncrement(op) && op.s in states[k].db.sessions
    ensures CountIn(states[k].db, op) == CountIn(states[0].db, op) + Commits(states[k].log, op)
    ensures op.s < states[0].db.nextSid ==> op.s in states[0].db.sessions
  {
    RunsAreSerial(states, ts, k);
    ReplayCounts(states[0].db, states[k].log, op);
  }
}
