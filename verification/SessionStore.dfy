/** megalos_server/state.py: the functions that read and write the two tables, as methods of the
    object that holds them. Every method is one SQLite transaction; a raised KeyError is a
    `found` of false. */
module SessionStore {
  import opened Options
  import opened Workflows
  import opened References
  import opened Stepping
  import opened Tables
  import opened Sequences
  import opened Soundness

  /** An entry of `full_stack`, the overloaded column split by frame type. */
  datatype StackEntry = StackEntry(depth: nat, kind: FrameKind, session: Sid, pausedAt: Option<StepId>, callStep: Option<StepId>)

  datatype Creation = Inserted(sid: Sid) | RolledBack(root: Sid, depth: nat)

  function EntryOf(frames: Frames, f: Sid): StackEntry
    requires f in frames
  {
    var fr := frames[f];
    StackEntry(fr.depth, fr.kind, f,
               if fr.kind == DigressionFrame then fr.callStep else None,
               if fr.kind == CallFrame then fr.callStep else None)
  }

  /** `ORDER BY depth ASC` over the frames of a root. */
  ghost predicate ByDepth(frames: Frames, xs: seq<Sid>) {
    && (forall x :: x in xs ==> x in frames)
    && forall i, j :: 0 <= i < j < |xs| ==> frames[xs[i]].depth <= frames[xs[j]].depth
  }

  datatype Root = Root(session: Sid, depth: nat)

  /** `ORDER BY depth DESC, session_id ASC` */
  predicate ListsBefore(a: Root, b: Root) {
    a.depth > b.depth || (a.depth == b.depth && a.session < b.session)
  }

  ghost predicate BreakdownOrder(rows: seq<Root>) {
    forall i, j :: 0 <= i < j < |rows| ==> ListsBefore(rows[i], rows[j])
  }

  class Store {
    var sessions: map<Sid, Session>
    var frames: Frames
    var nextSid: Sid

    constructor ()
      ensures Tables() == Db(map[], map[], 0)
    {
      sessions, frames, nextSid := map[], map[], 0;
    }

    function Tables(): Db
      reads this
    {
      Db(sessions, frames, nextSid)
    }

    // --- sessions --------------------------------------------------------------------------

    /** `update_session` with either column or both. */
    method UpdateSession(s: Sid, step: Option<StepId>, data: Option<StepData>, now: int) returns (found: bool)
      requires step.Some? || data.Some?
      modifies this`sessions
      ensures found <==> s in old(sessions)
      ensures step.Some? && data.Some? ==> Tables() == SetStepAndData(old(Tables()), s, step.value, data.value, now)
      ensures step.Some? && data.None? ==> Tables() == SetStep(old(Tables()), s, step.value, now)
      ensures step.None? && data.Some? ==> Tables() == SetData(old(Tables()), s, data.value, now)
    {
      if s !in sessions {
        return false;
      }
      var row := sessions[s];
      if step.Some? {
        row := row.(currentStep := step.value);
        if step.value == COMPLETE {
          row := row.(completedAt := Some(now));
        }
      }
      if data.Some? {
        row := row.(stepData := data.value);
      }
      sessions := sessions[s := row.(updatedAt := now)];
      assert step.Some? && data.Some? ==> sessions == SetStepAndData(old(Tables()), s, step.value, data.value, now).sessions;
      return true;
    }

    /** `increment_visit` */
    method IncrementVisit(s: Sid, step: StepId, now: int) returns (count: Option<nat>)
      modifies this`sessions
      ensures Tables() == IncVisit(old(Tables()), s, step, now)
      ensures count == if s in old(sessions) then Some(CountOf(old(sessions[s].visits), step) + 1) else None
    {
      if s !in sessions {
        return None;
      }
      var row := sessions[s];
      var n := (if step in row.visits then row.visits[step] else 0) + 1;
      sessions := sessions[s := row.(visits := row.visits[step := n], updatedAt := now)];
      return Some(n);
    }

    /** `increment_retry` */
    method IncrementRetry(s: Sid, step: StepId, now: int) returns (count: Option<nat>)
      modifies this`sessions
      ensures Tables() == IncRetry(old(Tables()), s, step, now)
      ensures count == if s in old(sessions) then Some(CountOf(old(sessions[s].retries), step) + 1) else None
    {
      if s !in sessions {
        return None;
      }
      var row := sessions[s];
      var n := (if step in row.retries then row.retries[step] else 0) + 1;
      sessions := sessions[s := row.(retries := row.retries[step := n], updatedAt := now)];
      return Some(n);
    }

    /** `set_escalation` */
    method Escalate(s: Sid, reason: string, now: int) returns (found: bool)
      modifies this`sessions
      ensures Tables() == SetEscalation(old(Tables()), s, reason, now)
      ensures found <==> s in old(sessions)
    {
      found := s in sessions;
      if found {
        sessions := sessions[s := sessions[s].(escalation := Some(reason), updatedAt := now)];
      }
    }

    /** `store_artifact` */
    method SaveArtifact(s: Sid, step: StepId, artifact: string, content: string, now: int) returns (found: bool)
      modifies this`sessions
      ensures Tables() == StoreArtifact(old(Tables()), s, step, artifact, content, now)
      ensures found <==> s in old(sessions)
    {
      found := s in sessions;
      if found {
        var row := sessions[s];
        var checkpoints := row.checkpoints;
        if step !in checkpoints {
          checkpoints := checkpoints[step := map[]];
        }
        checkpoints := checkpoints[step := checkpoints[step][artifact := content]];
        sessions := sessions[s := row.(checkpoints := checkpoints, updatedAt := now)];
        assert checkpoints == row.checkpoints[step := checkpoints[step]];
      }
    }

    /** `invalidate_steps_after`, and `clear_step_data_key` for a single id. */
    method InvalidateSteps(s: Sid, ids: seq<StepId>, now: int) returns (found: bool)
      modifies this`sessions
      ensures Tables() == DropData(old(Tables()), s, Elements(ids), now)
      ensures found <==> s in old(sessions)
    {
      if s !in sessions {
        return false;
      }
      var data := sessions[s].stepData;
      var i := 0;
      while i < |ids|
        invariant 0 <= i <= |ids|
        invariant data == old(sessions[s].stepData) - Elements(ids[..i])
      {
        data := data - {ids[i]};
        assert ids[..i + 1] == ids[..i] + [ids[i]];
        assert Elements(ids[..i + 1]) == Elements(ids[..i]) + {ids[i]};
        i := i + 1;
      }
      assert ids[..i] == ids;
      sessions := sessions[s := sessions[s].(stepData := data, updatedAt := now)];
      return true;
    }

    /** `delete_session` */
    method Delete(s: Sid) returns (found: bool)
      modifies this`sessions, this`frames
      ensures Tables() == DeleteSession(old(Tables()), s)
      ensures found <==> s in old(sessions)
    {
      found := s in sessions;
      if found {
        sessions := sessions - {s};
        frames := frames - {s};
      }
    }

    /** `count_active` */
    method Active() returns (n: nat)
      ensures n == CountActive(Tables())
    {
      n := |ActiveIn(sessions)|;
    }

    // --- set_called_session --------------------------------------------------------------------

    method SetCalled(parent: Sid, child: Option<Sid>, callStep: Option<StepId>, now: int) returns (found: bool)
      modifies this`sessions, this`frames
      ensures found <==> parent in old(sessions)
      ensures child.Some? && callStep.Some? ==> Tables() == LinkCalled(old(Tables()), parent, child.value, callStep.value, now)
      ensures child.Some? && callStep.None? && found ==>
                Tables() == WithRow(old(Tables()), parent, old(sessions[parent]).(called := child, updatedAt := now))
      ensures child.None? ==> Tables() == ClearCalled(old(Tables()), parent, now)
    {
      if parent !in sessions {
        return false;
      }
      sessions := sessions[parent := sessions[parent].(called := child, updatedAt := now)];
      if child.Some? && callStep.Some? && child.value in frames {
        frames := frames[child.value := frames[child.value].(callStep := callStep)];
      }
      if child.None? {
        var root := if parent in frames then frames[parent].root else parent;
        var next := if parent in frames then frames[parent].depth + 1 else 1;
        frames := map f | f in frames && !(frames[f].root == root && frames[f].depth == next) :: frames[f];
        assert frames == ClearCalled(old(Tables()), parent, now).frames;
      }
      return true;
    }

    // --- Stack accessors ---------------------------------------------------------------------------

    /** The row of a query by root and depth. */
    method FrameOf(root: Sid, depth: int) returns (r: Option<Sid>)
      ensures r.Some? ==> FrameIn(frames, r.value, root, depth)
      ensures r.None? ==> forall f :: f in frames ==> !FrameIn(frames, f, root, depth)
      ensures Sound(Tables()) ==> r == PickFrame(frames, root, depth)
    {
      if f :| f in frames && FrameIn(frames, f, root, depth) {
        r := Some(f);
      } else {
        r := None;
      }
    }

    /** `top_frame_for`; in sound tables the row is the only one. */
    method TopFrameFor(s: Sid) returns (r: Option<Sid>)
      requires Sound(Tables())
      ensures r == TopFrame(Tables(), s)
    {
      if s !in frames {
        r := FrameOf(s, 1);
      } else {
        r := FrameOf(frames[s].root, frames[s].depth + 1);
      }
    }

    /** `parent_of` */
    method Parent(s: Sid) returns (r: Option<Sid>)
      requires Sound(Tables())
      ensures r == ParentOf(Tables(), s)
    {
      if s !in frames {
        return None;
      }
      if frames[s].depth == 1 {
        return Some(frames[s].root);
      }
      r := FrameOf(frames[s].root, frames[s].depth - 1);
    }

    /** `stack_depth` */
    method Depth(root: Sid) returns (n: nat)
      ensures n == StackDepth(Tables(), root)
    {
      var above := set f | f in frames && frames[f].root == root;
      assert above == FramesOf(Tables(), root);
      n := |above|;
    }

    /** `full_stack`: a synthesised entry for the root, then its frames by depth. */
    method FullStack(root: Sid) returns (entries: seq<StackEntry>, ghost order: seq<Sid>)
      ensures Distinct(order) && ByDepth(frames, order) && (forall f :: f in order <==> f in FramesOf(Tables(), root))
      ensures |entries| == |order| + 1 && entries[0] == StackEntry(0, DigressionFrame, root, None, None)
      ensures forall i :: 0 <= i < |order| ==> entries[i + 1] == EntryOf(frames, order[i])
    {
      entries, order := [StackEntry(0, DigressionFrame, root, None, None)], [];
      var rest := set f | f in frames && frames[f].root == root;
      while rest != {}
        invariant rest <= FramesOf(Tables(), root)
        invariant Distinct(order) && ByDepth(frames, order)
        invariant forall f :: f in order <==> f in FramesOf(Tables(), root) && f !in rest
        invariant forall f, g :: f in order && g in rest ==> frames[f].depth <= frames[g].depth
        invariant |entries| == |order| + 1 && entries[0] == StackEntry(0, DigressionFrame, root, None, None)
        invariant forall i :: 0 <= i < |order| ==> entries[i + 1] == EntryOf(frames, order[i])
        decreases |rest|
      {
        var f := Shallowest(rest);
        entries := entries + [EntryOf(frames, f)];
        order := order + [f];
        rest := rest - {f};
      }
    }

    method Shallowest(pool: set<Sid>) returns (f: Sid)
      requires pool != {} && pool <= frames.Keys
      ensures f in pool && forall g :: g in pool ==> frames[f].depth <= frames[g].depth
    {
      f :| f in pool;
      var rest := pool - {f};
      while rest != {}
        invariant f in pool && rest <= pool
        invariant forall g :: g in pool && g !in rest ==> frames[f].depth <= frames[g].depth
        decreases |rest|
      {
        var g :| g in rest;
        if frames[g].depth < frames[f].depth {
          f := g;
        }
        rest := rest - {g};
      }
    }

    /** `depth_breakdown`: every unframed session with the number of frames above it, deepest first. */
    method DepthBreakdown() returns (rows: seq<Root>)
      ensures BreakdownOrder(rows)
      ensures forall r :: r in rows <==> r.session in sessions && r.session !in frames && r.depth == StackDepth(Tables(), r.session)
    {
      hide BreakdownOrder, ListsBefore, StackDepth;
      rows := [];
      BreakdownStarts();
      var rest := set s | s in sessions && s !in frames :: Root(s, StackDepth(Tables(), s));
      ghost var all := rest;
      assert forall r :: r in all <==> r.session in sessions && r.session !in frames && r.depth == StackDepth(Tables(), r.session);
      while rest != {}
        invariant rest <= all
        invariant forall r :: r in all <==> r in rows || r in rest
        invariant forall r, q :: r in rows && q in rest ==> ListsBefore(r, q)
        invariant BreakdownOrder(rows)
        invariant forall r, q :: r in all && q in all && r.session == q.session ==> r == q
        decreases |rest|
      {
        var r := FirstListed(rest);
        BreakdownSnoc(rows, r);
        rows := rows + [r];
        rest := rest - {r};
      }
    }

    static method FirstListed(pool: set<Root>) returns (r: Root)
      requires pool != {}
      requires forall p, q :: p in pool && q in pool && p.session == q.session ==> p == q
      ensures r in pool && forall q :: q in pool && q != r ==> ListsBefore(r, q)
    {
      r :| r in pool;
      var rest := pool - {r};
      while rest != {}
        invariant r in pool && rest <= pool
        invariant forall q :: q in pool && q !in rest && q != r ==> ListsBefore(r, q)
        decreases |rest|
      {
        var q :| q in rest;
        if ListsBefore(q, r) {
          r := q;
        }
        rest := rest - {q};
      }
    }

    // --- create_session -----------------------------------------------------------------------------

    /** A row of the pool that nothing in the pool is evicted before. */
    method Oldest(pool: set<Sid>) returns (v: Sid)
      requires pool != {} && pool <= sessions.Keys
      ensures v in pool && forall k :: k in pool ==> !EvictsBefore(sessions[k], sessions[v])
    {
      v :| v in pool;
      var rest := pool - {v};
      while rest != {}
        invariant v in pool && rest <= pool
        invariant forall k :: k in pool && k !in rest ==> !EvictsBefore(sessions[k], sessions[v])
        decreases |rest|
      {
        var k :| k in rest;
        if EvictsBefore(sessions[k], sessions[v]) {
          v := k;
        }
        rest := rest - {k};
      }
    }

    /** The eviction query: so many rows that one more fits under the cap, complete and longest
        idle first. */
    method SelectVictims(cap: int) returns (victims: set<Sid>)
      ensures Victims(Tables(), cap, victims)
    {
      victims := {};
      var wanted := if |sessions| >= cap then |sessions| - (cap - 1) else 0;
      var pool := sessions.Keys;
      while |victims| < wanted && pool != {}
        invariant victims <= sessions.Keys && pool == sessions.Keys - victims
        invariant |victims| <= wanted && |victims| + |pool| == |sessions|
        invariant forall v, k :: v in victims && k in pool ==> !EvictsBefore(sessions[k], sessions[v])
        decreases |pool|
      {
        var v := Oldest(pool);
        victims := victims + {v};
        pool := pool - {v};
      }
    }

    /** `create_session`: evict, insert the row, and for a child read the depth and insert the
        frame; StackFull rolls the whole transaction back. */
    method CreateSession(cap: int, workflowType: Name, step: StepId, parent: Option<Sid>, kind: FrameKind,
                         callStep: Option<StepId>, maxDepth: Option<nat>, fingerprint: string, now: int)
        returns (r: Creation, evicted: set<Sid>)
      modifies this
      ensures Victims(old(Tables()), cap, evicted)
      ensures r.Inserted? <==> parent.None? || !PushFull(old(Tables()), evicted, parent.value, maxDepth)
      ensures r.Inserted? ==> r.sid == old(nextSid) && nextSid == old(nextSid) + 1
      ensures r.RolledBack? ==> Tables() == old(Tables())
      ensures parent.None? ==> Tables() == CreateRoot(old(Tables()), evicted, workflowType, step, fingerprint, now)
      ensures parent.Some? ==>
                Tables() == CreateChild(old(Tables()), evicted, workflowType, step, parent.value, kind, callStep, maxDepth, fingerprint, now)
    {
      hide Victims, StackDepth, CreateChild, CreateRoot, PushFull, NewSession;
      var sessions0, frames0 := sessions, frames;
      evicted := SelectVictims(cap);
      sessions := sessions - evicted;
      frames := frames - evicted;
      var sid := nextSid;
      sessions := sessions[sid := NewSession(workflowType, step, parent, fingerprint, now)];
      if parent.Some? {
        var root := if parent.value in frames then frames[parent.value].root else parent.value;
        var depth := if parent.value in frames then frames[parent.value].depth + 1 else 1;
        if maxDepth.Some? {
          var current := Depth(root);
          DepthIgnoresRows(Tables(), Remove(old(Tables()), evicted), root);
          FullMeans(old(Tables()), evicted, parent.value, maxDepth);
          if current >= maxDepth.value {
            FullCreatesNothing(old(Tables()), evicted, workflowType, step, parent.value, kind, callStep, maxDepth, fingerprint, now);
            sessions, frames := sessions0, frames0;
            return RolledBack(root, current), evicted;
          }
        }
        FullMeans(old(Tables()), evicted, parent.value, maxDepth);
        CreatedAbove(old(Tables()), evicted, workflowType, step, parent.value, kind, callStep, maxDepth, fingerprint, now);
        frames := frames[sid := Frame(root, depth, kind, callStep)];
      }
      nextSid := sid + 1;
      r := Inserted(sid);
      if parent.None? {
        CreatedRoot(old(Tables()), evicted, workflowType, step, fingerprint, now);
      }
    }

    // --- push_frame, pop_frame, peek_frame ------------------------------------------------------------

    /** `peek_frame`: a frame of maximal depth. */
    method PeekFrame(root: Sid) returns (r: Option<Sid>)
      ensures r.None? <==> FramesOf(Tables(), root) == {}
      ensures r.Some? ==> r.value in FramesOf(Tables(), root)
                          && forall f :: f in FramesOf(Tables(), root) ==> frames[f].depth <= frames[r.value].depth
    {
      var rest := set f | f in frames && frames[f].root == root;
      r := None;
      while rest != {}
        invariant rest <= FramesOf(Tables(), root)
        invariant r.None? <==> rest == FramesOf(Tables(), root)
        invariant r.Some? ==> r.value in FramesOf(Tables(), root)
        invariant r.Some? ==>
                    forall f :: f in FramesOf(Tables(), root) && f !in rest ==> frames[f].depth <= frames[r.value].depth
        decreases |rest|
      {
        var f :| f in rest;
        if r.None? || frames[r.value].depth < frames[f].depth {
          r := Some(f);
        }
        rest := rest - {f};
      }
    }

    /** `push_frame`: one above the deepest frame of the root. */
    method PushFrame(root: Sid, s: Sid, kind: FrameKind, callStep: Option<StepId>) returns (depth: nat)
      requires s !in frames
      modifies this`frames
      ensures Tables() == old(Tables()).(frames := old(frames)[s := Frame(root, depth, kind, callStep)])
      ensures forall f :: f in FramesOf(old(Tables()), root) ==> old(frames)[f].depth < depth
      ensures depth == 1 || exists f :: f in FramesOf(old(Tables()), root) && old(frames)[f].depth + 1 == depth
    {
      var top := PeekFrame(root);
      depth := (if top.Some? then frames[top.value].depth else 0) + 1;
      frames := frames[s := Frame(root, depth, kind, callStep)];
    }

    /** `pop_frame`: the frame row goes, the session row stays. */
    method PopFrame(s: Sid) returns (removed: Option<Frame>)
      modifies this`frames
      ensures Tables() == old(Tables()).(frames := old(frames) - {s})
      ensures removed == if s in old(frames) then Some(old(frames)[s]) else None
    {
      if s !in frames {
        assert frames - {s} == frames;
        return None;
      }
      removed := Some(frames[s]);
      frames := frames - {s};
    }
  }

  lemma BreakdownStarts()
    ensures BreakdownOrder([])
  {
  }

  lemma BreakdownSnoc(rows: seq<Root>, r: Root)
    requires BreakdownOrder(rows) && forall q :: q in rows ==> ListsBefore(q, r)
    ensures BreakdownOrder(rows + [r])
  {
    hide ListsBefore;
  }

  lemma FullMeans(db: Db, victims: set<Sid>, p: Sid, maxDepth: Option<nat>)
    ensures PushFull(db, victims, p, maxDepth) <==>
              maxDepth.Some? && StackDepth(Remove(db, victims), RootOf(Remove(db, victims), p)) >= maxDepth.value
  {
  }

  lemma CreatedRoot(db: Db, victims: set<Sid>, name: Name, step: StepId, fp: string, now: int)
    ensures CreateRoot(db, victims, name, step, fp, now) ==
            Db((db.sessions - victims)[db.nextSid := NewSession(name, step, None, fp, now)], db.frames - victims, db.nextSid + 1)
  {
  }

  /** The two outcomes of creating a framed session, as the tables they leave. */
  lemma FullCreatesNothing(db: Db, victims: set<Sid>, name: Name, step: StepId, p: Sid, kind: FrameKind,
                           callStep: Option<StepId>, maxDepth: Option<nat>, fp: string, now: int)
    requires PushFull(db, victims, p, maxDepth)
    ensures CreateChild(db, victims, name, step, p, kind, callStep, maxDepth, fp, now) == db
  {
    hide PushFull;
  }

  lemma CreatedAbove(db: Db, victims: set<Sid>, name: Name, step: StepId, p: Sid, kind: FrameKind,
                     callStep: Option<StepId>, maxDepth: Option<nat>, fp: string, now: int)
    requires !PushFull(db, victims, p, maxDepth)
    ensures var left := Remove(db, victims);
            CreateChild(db, victims, name, step, p, kind, callStep, maxDepth, fp, now) ==
            Db(left.sessions[db.nextSid := NewSession(name, step, Some(p), fp, now)],
               left.frames[db.nextSid := Frame(RootOf(left, p), DepthOf(left, p) + 1, kind, callStep)], db.nextSid + 1)
  {
    hide PushFull;
  }

  lemma DepthIgnoresRows(a: Db, b: Db, root: Sid)
    requires a.frames == b.frames
    ensures StackDepth(a, root) == StackDepth(b, root)
  {
    assert FramesOf(a, root) == FramesOf(b, root);
  }
}
