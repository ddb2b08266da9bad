/** What the answers of the store mean for the abstract stacks, and what creating a session under
    the session cap leaves. */
module StoreMeaning {
  import opened Options
  import opened Workflows
  import opened Tables
  import opened Sequences
  import opened StackView
  import opened StackWrites
  import opened Soundness
  import opened SessionStore

  // --- Listings ---------------------------------------------------------------------------------

  /** The frames of a root listed by depth are its stack in the view. */
  lemma OrderIsStack(db: Db, v: View, r: Sid, xs: seq<Sid>)
    requires Represents(db, v) && r in v
    requires Distinct(xs) && ByDepth(db.frames, xs) && forall f :: f in xs <==> f in FramesOf(db, r)
    ensures xs == v[r]
  {
    StackDepthAgrees(db, v, r);
    ElementCount(xs, FramesOf(db, r));
    forall m | 0 <= m < |v[r]| ensures AtDepth(db.frames, v[r], m) {
      assert FrameAt(db, v[r][m], r, m + 1);
    }
    SortedPrefix(db.frames, v[r], xs, |xs|);
  }

  ghost predicate AtDepth(frames: Frames, stack: seq<Sid>, m: nat)
    requires m < |stack|
  {
    stack[m] in frames && frames[stack[m]].depth == m + 1
  }

  lemma {:induction false} SortedPrefix(frames: Frames, stack: seq<Sid>, xs: seq<Sid>, k: nat)
    requires Distinct(xs) && ByDepth(frames, xs) && |xs| == |stack| && forall f :: f in xs <==> f in stack
    requires forall m :: 0 <= m < |stack| ==> AtDepth(frames, stack, m)
    requires k <= |xs|
    ensures forall m :: 0 <= m < k ==> xs[m] == stack[m]
  {
    if k > 0 {
      SortedPrefix(frames, stack, xs, k - 1);
      assert stack[k - 1] in xs && xs[k - 1] in stack;
      var i :| 0 <= i < |xs| && xs[i] == stack[k - 1];
      var j :| 0 <= j < |stack| && stack[j] == xs[k - 1];
      assert AtDepth(frames, stack, k - 1) && AtDepth(frames, stack, j);
      assert AtDepth(frames, stack, i);
    }
  }

  /** `full_stack` lists exactly the view: entry d is the session at position d, at depth d, with
      its own overloaded column under the key of its frame type. */
  lemma FullStackIsView(db: Db, v: View, r: Sid, entries: seq<StackEntry>, order: seq<Sid>)
    requires Represents(db, v) && r in v
    requires Distinct(order) && ByDepth(db.frames, order) && forall f :: f in order <==> f in FramesOf(db, r)
    requires |entries| == |order| + 1 && entries[0] == StackEntry(0, DigressionFrame, r, None, None)
    requires forall i :: 0 <= i < |order| ==> entries[i + 1] == EntryOf(db.frames, order[i])
    ensures |entries| == |v[r]| + 1
    ensures forall d :: 0 <= d < |entries| ==> entries[d].session == At(v, r, d) && entries[d].depth == d
  {
    OrderIsStack(db, v, r, order);
    forall d | 0 <= d < |entries| ensures entries[d].session == At(v, r, d) && entries[d].depth == d {
      if d > 0 {
        assert entries[d - 1 + 1] == EntryOf(db.frames, order[d - 1]);
        assert FrameAt(db, v[r][d - 1], r, d - 1 + 1);
      }
    }
  }

  /** `depth_breakdown` lists exactly the roots of the view with the lengths of their stacks. */
  lemma BreakdownIsView(db: Db, v: View, rows: seq<Root>)
    requires Represents(db, v)
    requires forall r :: r in rows <==> r.session in db.sessions && r.session !in db.frames && r.depth == StackDepth(db, r.session)
    ensures forall r :: r in rows <==> r.session in v && r.depth == |v[r.session]|
  {
    forall s | s in v ensures StackDepth(db, s) == |v[s]| {
      StackDepthAgrees(db, v, s);
    }
  }

  // --- push_frame and pop_frame -------------------------------------------------------------------

  /** push_frame of a bare session onto another root: the depth it computes is the next position. */
  lemma PushFrameRaises(db: Db, v: View, root: Sid, s: Sid, depth: nat, kind: FrameKind, callStep: Option<StepId>)
    requires Represents(db, v) && root in v && s in v && s != root && v[s] == []
    requires forall f :: f in FramesOf(db, root) ==> db.frames[f].depth < depth
    requires depth == 1 || exists f :: f in FramesOf(db, root) && db.frames[f].depth + 1 == depth
    ensures depth == |v[root]| + 1
    ensures Represents(db.(frames := db.frames[s := Frame(root, depth, kind, callStep)]), (v - {s})[root := v[root] + [s]])
  {
    StackDepthAgrees(db, v, root);
    if v[root] != [] {
      assert FrameAt(db, v[root][|v[root]| - 1], root, |v[root]| - 1 + 1);
    }
    forall f | f in FramesOf(db, root) ensures db.frames[f].depth <= |v[root]| {
      assert Framed(db, v, f);
    }
    var b, w := db.(frames := db.frames[s := Frame(root, depth, kind, callStep)]), (v - {s})[root := v[root] + [s]];
    forall f | f in b.frames ensures Framed(b, w, f) {
      if f != s {
        assert Framed(db, v, f);
      }
    }
    forall r, i | r in w && 0 <= i < |w[r]| ensures FrameAt(b, w[r][i], r, i + 1) {
      if r != root || i < |v[r]| {
        assert FrameAt(db, v[r][i], r, i + 1);
      }
    }
  }

  /** pop_frame of the top frame undoes it: the session becomes a bare root again. */
  lemma PopFrameLowers(db: Db, v: View, s: Sid)
    requires Represents(db, v) && s in db.frames && TopFrame(db, s) == None
    ensures var r := db.frames[s].root;
            r in v && v[r] != [] && v[r][|v[r]| - 1] == s && s !in v && s != r
            && Represents(db.(frames := db.frames - {s}), v[r := v[r][..|v[r]| - 1]][s := []])
  {
    var r := db.frames[s].root;
    Located(db, v, s);
    AccessorsAgree(db, v, r, DepthOf(db, s));
    var b, w := db.(frames := db.frames - {s}), v[r := v[r][..|v[r]| - 1]][s := []];
    forall f | f in b.frames ensures Framed(b, w, f) {
      assert Framed(db, v, f) && Framed(db, v, s);
    }
    forall q, i | q in w && 0 <= i < |w[q]| ensures FrameAt(b, w[q][i], q, i + 1) {
      assert FrameAt(db, v[q][i], q, i + 1);
    }
  }

  // --- Eviction ---------------------------------------------------------------------------------------

  /** Below the cap nothing is evicted. */
  lemma NoEvictionBelowCap(db: Db, cap: int, victims: set<Sid>)
    requires Victims(db, cap, victims) && |db.sessions| < cap
    ensures victims == {}
  {
  }

  lemma EvictedCount(db: Db, cap: int, victims: set<Sid>)
    requires Victims(db, cap, victims) && |db.sessions| >= cap
    ensures victims <= db.sessions.Keys && |victims| == |db.sessions| + 1 - (if cap >= 1 then cap else 1)
  {
  }

  lemma CountWithNew(db: Db, victims: set<Sid>, b: Db)
    requires victims <= db.sessions.Keys && db.nextSid !in db.sessions
    requires b.sessions.Keys == (db.sessions - victims).Keys + {db.nextSid}
    ensures |b.sessions| == |db.sessions| - |victims| + 1
  {
    assert (db.sessions - victims).Keys == db.sessions.Keys - victims;
    assert |b.sessions.Keys| == |db.sessions.Keys - victims| + 1;
  }

  lemma OneMoreMeetsCap(db: Db, cap: int, victims: set<Sid>, b: Db)
    requires Victims(db, cap, victims) && |db.sessions| >= cap && db.nextSid !in db.sessions
    requires b.sessions.Keys == (db.sessions - victims).Keys + {db.nextSid}
    ensures db.nextSid in b.sessions && |b.sessions| == if cap >= 1 then cap else 1
  {
    hide Victims;
    EvictedCount(db, cap, victims);
    CountWithNew(db, victims, b);
  }

  lemma NextIsNew(db: Db)
    requires Sound(db)
    ensures db.nextSid !in db.sessions
  {
  }

  /** At or over the cap exactly max(cap, 1) sessions are left, the new one among them. */
  lemma CreationMeetsCap(db: Db, cap: int, victims: set<Sid>, name: Name, step: StepId, fp: string, now: int)
    requires Sound(db) && Victims(db, cap, victims) && |db.sessions| >= cap
    ensures var b := CreateRoot(db, victims, name, step, fp, now);
            db.nextSid in b.sessions && |b.sessions| == if cap >= 1 then cap else 1
  {
    hide Victims, NewSession, Sound;
    NextIsNew(db);
    OneMoreMeetsCap(db, cap, victims, CreateRoot(db, victims, name, step, fp, now));
  }

  lemma ChildKeys(db: Db, victims: set<Sid>, name: Name, step: StepId, p: Sid, kind: FrameKind,
                 callStep: Option<StepId>, maxDepth: Option<nat>, fp: string, now: int)
    requires !PushFull(db, victims, p, maxDepth)
    ensures CreateChild(db, victims, name, step, p, kind, callStep, maxDepth, fp, now).sessions.Keys ==
            (db.sessions - victims).Keys + {db.nextSid}
  {
    hide PushFull;
  }

  lemma ChildCreationMeetsCap(db: Db, cap: int, victims: set<Sid>, name: Name, step: StepId, p: Sid, kind: FrameKind,
                              callStep: Option<StepId>, maxDepth: Option<nat>, fp: string, now: int)
    requires Sound(db) && Victims(db, cap, victims) && |db.sessions| >= cap && !PushFull(db, victims, p, maxDepth)
    ensures var b := CreateChild(db, victims, name, step, p, kind, callStep, maxDepth, fp, now);
            db.nextSid in b.sessions && |b.sessions| == if cap >= 1 then cap else 1
  {
    hide Victims, PushFull, CreateChild, NewSession, Sound;
    NextIsNew(db);
    ChildKeys(db, victims, name, step, p, kind, callStep, maxDepth, fp, now);
    OneMoreMeetsCap(db, cap, victims, CreateChild(db, victims, name, step, p, kind, callStep, maxDepth, fp, now));
  }

  /** Since when a session counts as idle: its completion, if it ever completed, or its last update. */
  function IdleSince(row: Session): int {
    if row.completedAt.Some? then row.completedAt.value else row.updatedAt
  }

  /** No survivor comes before a victim: no session that is not complete is evicted while a
      complete one survives, and within a class the order is that of the completion time, or of the
      last update where there is none. */
  lemma EvictionOrder(db: Db, cap: int, victims: set<Sid>, v: Sid, k: Sid)
    requires Victims(db, cap, victims) && v in victims && k in db.sessions && k !in victims
    ensures var a, b := db.sessions[v], db.sessions[k];
            && (b.currentStep == COMPLETE ==> a.currentStep == COMPLETE)
            && ((a.currentStep == COMPLETE <==> b.currentStep == COMPLETE) ==>
                  IdleSince(a) <= IdleSince(b))
  {
    assert !EvictsBefore(db.sessions[k], db.sessions[v]);
  }

  /** Among the sessions that are not complete, those the eviction takes were last updated before those
      it leaves. */
  ghost predicate OpenByUpdate(db: Db, victims: set<Sid>) {
    forall v, k :: v in victims && v in db.sessions && k in db.sessions && k !in victims && Open(db, v) && Open(db, k) ==>
      db.sessions[v].updatedAt <= db.sessions[k].updatedAt
  }

  predicate Open(db: Db, s: Sid)
    requires s in db.sessions
  {
    db.sessions[s].currentStep != COMPLETE
  }

  /** No open session that was completed before, and revised since, stands before another by its old
      completion although it was updated later. */
  ghost predicate CompletionsAgree(db: Db) {
    forall v, k :: v in db.sessions && k in db.sessions && Open(db, v) && Open(db, k)
                    && IdleSince(db.sessions[v]) <= IdleSince(db.sessions[k]) ==>
      db.sessions[v].updatedAt <= db.sessions[k].updatedAt
  }

  /** Some eviction takes v and leaves k, unless k comes before v. */
  lemma EvictedInstead(db: Db, v: Sid, k: Sid) returns (cap: int, victims: set<Sid>)
    requires v in db.sessions && k in db.sessions && v != k && !EvictsBefore(db.sessions[k], db.sessions[v])
    ensures Victims(db, cap, victims) && v in victims && k !in victims
  {
    victims := set r | r in db.sessions && r != k && !EvictsBefore(db.sessions[k], db.sessions[r]);
    cap := |db.sessions| - |victims| + 1;
    SubsetSize(victims, db.sessions.Keys);
    assert v in victims && |victims| > 0;
    forall a, b | a in victims && b in db.sessions && b !in victims ensures !EvictsBefore(db.sessions[b], db.sessions[a]) {
      assert b == k || EvictsBefore(db.sessions[k], db.sessions[b]);
    }
  }

  /** The open sessions are evicted in the order of their last updates, whatever the cap, if and only if
      the old completions of revised sessions agree with that order; so they are as long as no open
      session was ever complete. */
  lemma OpenEvictionIff(db: Db)
    ensures (forall cap, victims :: Victims(db, cap, victims) ==> OpenByUpdate(db, victims)) <==> CompletionsAgree(db)
    ensures (forall s :: s in db.sessions && Open(db, s) ==> db.sessions[s].completedAt.None?) ==> CompletionsAgree(db)
  {
    if CompletionsAgree(db) {
      forall cap, victims | Victims(db, cap, victims) ensures OpenByUpdate(db, victims) {
        forall v, k | v in victims && v in db.sessions && k in db.sessions && k !in victims && Open(db, v) && Open(db, k)
          ensures db.sessions[v].updatedAt <= db.sessions[k].updatedAt
        {
          assert !EvictsBefore(db.sessions[k], db.sessions[v]);
        }
      }
    } else {
      var v, k :| v in db.sessions && k in db.sessions && Open(db, v) && Open(db, k) && IdleSince(db.sessions[v]) <= IdleSince(db.sessions[k])
                  && db.sessions[v].updatedAt > db.sessions[k].updatedAt;
      var cap, victims := EvictedInstead(db, v, k);
      assert !OpenByUpdate(db, victims);
    }
  }

  // --- Exactly when an eviction keeps the stacks ---------------------------------------------------------

  lemma RootAddedBack(db: Db, b: Db, w: View, row: Session)
    requires Sound(db) && b == Db(db.sessions[db.nextSid := row], db.frames, db.nextSid + 1) && Represents(b, w)
    ensures Represents(db, w - {db.nextSid})
  {
    var v := w - {db.nextSid};
    forall f | f in db.frames ensures Framed(db, v, f) {
      assert Framed(b, w, f);
    }
    forall r, i | r in v && 0 <= i < |v[r]| ensures FrameAt(db, v[r][i], r, i + 1) {
      assert FrameAt(b, w[r][i], r, i + 1);
    }
  }

  /** Creating a root keeps the stacks if and only if no victim was directly below a survivor. */
  lemma RootCreationKeepsWellFormedIff(db: Db, victims: set<Sid>, name: Name, step: StepId, fp: string, now: int)
    requires WellFormed(db) && Issued(db) && Sound(db)
    ensures WellFormed(CreateRoot(db, victims, name, step, fp, now)) <==> Liftable(db, victims)
  {
    hide Liftable, Represents, Issued, Sound;
    var left, row := Remove(db, victims), NewSession(name, step, None, fp, now);
    var b := CreateRoot(db, victims, name, step, fp, now);
    RemovalKeepsWellFormedIff(db, victims);
    RemovalStaysIssued(db, victims);
    if WellFormed(left) {
      RootAdded(left, ViewOf(left), b, row);
    }
    if WellFormed(b) {
      RootAddedBack(left, b, ViewOf(b), row);
    }
  }

  lemma RemovalStaysIssued(db: Db, victims: set<Sid>)
    requires Issued(db) && Sound(db)
    ensures Issued(Remove(db, victims)) && Sound(Remove(db, victims)) && Remove(db, victims).nextSid == db.nextSid
  {
  }

  lemma {:induction false} NothingAboveGap(db: Db, v: View, p: Sid, f: Sid, d: nat)
    requires Represents(db, v) && p in db.sessions && TopFrame(db, p) == None && d > DepthOf(db, p)
    ensures !FrameAt(db, f, RootOf(db, p), d)
  {
    Located(db, v, p);
    AccessorsAgree(db, v, RootOf(db, p), DepthOf(db, p));
    if FrameAt(db, f, RootOf(db, p), d) {
      FrameAtIs(db, v, RootOf(db, p), d, f);
    }
  }

  /** Creating a child above a session that had none above it keeps the stacks if and only if no
      victim was directly below a survivor and the parent itself was not evicted. */
  lemma ChildCreationKeepsWellFormedIff(db: Db, victims: set<Sid>, name: Name, step: StepId, p: Sid, kind: FrameKind,
                                        callStep: Option<StepId>, maxDepth: Option<nat>, fp: string, now: int)
    requires WellFormed(db) && Issued(db) && Sound(db) && p in db.sessions && TopFrame(db, p) == None
    requires !PushFull(db, victims, p, maxDepth)
    ensures var b := CreateChild(db, victims, name, step, p, kind, callStep, maxDepth, fp, now);
            WellFormed(b) <==> Liftable(db, victims) && p !in victims
  {
    hide Liftable, Represents, Issued, Sound, PushFull, TopFrame;
    var left, row := Remove(db, victims), NewSession(name, step, Some(p), fp, now);
    var b := CreateChild(db, victims, name, step, p, kind, callStep, maxDepth, fp, now);
    assert IsPush(left, b, p, row, kind, callStep);
    RemovalKeepsWellFormedIff(db, victims);
    RemovalStaysIssued(db, victims);
    if p in victims {
      FramedAboveSession(db, victims, b, p, row, kind, callStep);
    } else {
      NoTopAfterRemoval(db, victims, p);
      if WellFormed(left) {
        PushKeepsWellFormedIff(left, b, p, row, kind, callStep);
      }
      if WellFormed(b) {
        PushedBack(db, victims, b, p, row, kind, callStep);
      }
    }
  }

  lemma NoTopAfterRemoval(db: Db, victims: set<Sid>, p: Sid)
    requires p in db.sessions && TopFrame(db, p) == None && p !in victims
    ensures TopFrame(Remove(db, victims), p) == None
  {
    var left := Remove(db, victims);
    forall f | f in left.frames ensures !IsTopFrame(left, p, f) {
      assert !IsTopFrame(db, p, f);
    }
  }

  lemma PushedBack(db: Db, victims: set<Sid>, b: Db, p: Sid, row: Session, kind: FrameKind, callStep: Option<StepId>)
    requires WellFormed(db) && Issued(db) && WellFormed(b) && p in db.sessions && p !in victims && TopFrame(db, p) == None
    requires IsPush(Remove(db, victims), b, p, row, kind, callStep)
    ensures WellFormed(Remove(db, victims))
  {
    NothingAbovePushed(db, victims, b, p, row, kind, callStep);
    SingleRemovalIff(b, db.nextSid);
    PushUndone(db, victims, b, p, row, kind, callStep);
  }

  lemma NothingAbovePushed(db: Db, victims: set<Sid>, b: Db, p: Sid, row: Session, kind: FrameKind, callStep: Option<StepId>)
    requires WellFormed(db) && Issued(db) && p in db.sessions && p !in victims && TopFrame(db, p) == None
    requires IsPush(Remove(db, victims), b, p, row, kind, callStep)
    ensures TopFrame(b, db.nextSid) == None
  {
    forall f | f in b.frames ensures !IsTopFrame(b, db.nextSid, f) {
      if IsTopFrame(b, db.nextSid, f) {
        NothingAboveGap(db, ViewOf(db), p, f, DepthOf(db, p) + 2);
      }
    }
  }

  lemma PushUndone(db: Db, victims: set<Sid>, b: Db, p: Sid, row: Session, kind: FrameKind, callStep: Option<StepId>)
    requires Issued(db) && IsPush(Remove(db, victims), b, p, row, kind, callStep) && WellFormed(Remove(b, {db.nextSid}))
    ensures WellFormed(Remove(db, victims))
  {
    var left, back := Remove(db, victims), Remove(b, {db.nextSid});
    assert back.sessions == left.sessions && back.frames == left.frames;
    SameFramesRepresents(back, left, ViewOf(back));
  }

  lemma RootOfFrameIsSession(b: Db, c: Sid)
    requires c in b.frames
    ensures WellFormed(b) ==> b.frames[c].root in b.sessions
  {
    assert forall v :: Represents(b, v) ==> Framed(b, v, c);
  }

  lemma FramedAboveSession(db: Db, victims: set<Sid>, b: Db, p: Sid, row: Session, kind: FrameKind, callStep: Option<StepId>)
    requires Issued(db) && p in db.sessions && p in victims && IsPush(Remove(db, victims), b, p, row, kind, callStep)
    ensures !WellFormed(b)
  {
    RootOfFrameIsSession(b, db.nextSid);
  }
}
