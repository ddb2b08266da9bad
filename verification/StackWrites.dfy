/** What the writes of state.py do to the stacks and to the legacy link columns. */
module StackWrites {
  import opened Options
  import opened Workflows
  import opened Tables
  import opened StackView

  /** The call frame directly above position d, if the frame there is one. */
  ghost function CalledAt(db: Db, v: View, r: Sid, d: nat): Option<Sid>
    requires r in v && d <= |v[r]|
  {
    if d < |v[r]| && v[r][d] in db.frames && db.frames[v[r][d]].kind == CallFrame then Some(v[r][d]) else None
  }

  ghost function BelowAt(v: View, r: Sid, d: nat): Option<Sid>
    requires r in v && d <= |v[r]|
  {
    if d == 0 then None else Some(At(v, r, d - 1))
  }

  /** The legacy columns of the session at one position of a stack. */
  ghost predicate LinkedAt(db: Db, v: View, r: Sid, d: nat)
    requires r in v && d <= |v[r]|
  {
    var s := At(v, r, d);
    s in db.sessions && db.sessions[s].called == CalledAt(db, v, r, d) && db.sessions[s].parent == BelowAt(v, r, d)
  }

  ghost predicate Linked(db: Db, v: View) {
    forall r, d :: r in v && 0 <= d <= |v[r]| ==> LinkedAt(db, v, r, d)
  }

  /** The tables are one stack per root, every id was handed out, and the legacy columns are a
      faithful cache. */
  ghost predicate Good(db: Db, v: View) {
    Represents(db, v) && Issued(db) && Linked(db, v)
  }

  /** What Good says through the accessors: `called_session` of p is c exactly when the frame
      directly above p is a call frame for c, and `parent_session_id` equals parent_of. */
  lemma LegacyColumnsFaithful(db: Db, v: View, s: Sid)
    requires Good(db, v) && s in db.sessions
    ensures forall c :: db.sessions[s].called == Some(c) <==>
                        TopFrame(db, s) == Some(c) && c in db.frames && db.frames[c].kind == CallFrame
    ensures db.sessions[s].parent == ParentOf(db, s)
  {
    var r, d := RootOf(db, s), DepthOf(db, s);
    Located(db, v, s);
    AccessorsAgree(db, v, r, d);
    assert LinkedAt(db, v, r, d);
    if d < |v[r]| {
      LocatedAt(db, v, r, d + 1);
      assert FrameAt(db, v[r][d], r, d + 1);
    }
  }

  lemma SameShapeGood(a: Db, b: Db, v: View)
    requires SameShape(a, b) && Good(a, v)
    ensures Good(b, v)
  {
    SameShapeRepresents(a, b, v);
    forall r, d | r in v && 0 <= d <= |v[r]| ensures LinkedAt(b, v, r, d) {
      assert LinkedAt(a, v, r, d);
    }
  }

  lemma EmptyIsGood(n: nat)
    ensures Good(Db(map[], map[], n), map[])
  {
  }

  // --- Adding a root -------------------------------------------------------------------------

  lemma RootAddedGood(db: Db, v: View, b: Db, row: Session)
    requires Good(db, v) && row.called == None && row.parent == None
    requires b == Db(db.sessions[db.nextSid := row], db.frames, db.nextSid + 1)
    ensures Good(b, v[db.nextSid := []])
  {
    RootAdded(db, v, b, row);
    var w := v[db.nextSid := []];
    forall r, d | r in w && 0 <= d <= |w[r]| ensures LinkedAt(b, w, r, d) {
      if r != db.nextSid {
        assert LinkedAt(db, v, r, d);
      }
    }
  }

  // --- Pushing a frame -----------------------------------------------------------------------

  lemma PushedLinks(db: Db, v: View, b: Db, w: View, p: Sid, row: Session, kind: FrameKind, callStep: Option<StepId>)
    requires Good(db, v) && p in db.sessions && TopFrame(db, p) == None
    requires IsPush(db, b, p, row, kind, callStep) && row.called == None && row.parent == Some(p)
    requires RootOf(db, p) in v && w == v[RootOf(db, p) := v[RootOf(db, p)] + [db.nextSid]] && Represents(b, w)
    ensures forall r, d :: r in w && 0 <= d <= |w[r]| ==>
              LinkedAt(b, w, r, d) || (At(w, r, d) == p && kind == CallFrame)
    ensures RootOf(db, p) in w && DepthOf(db, p) < |w[RootOf(db, p)]| && At(w, RootOf(db, p), DepthOf(db, p)) == p
    ensures w[RootOf(db, p)][DepthOf(db, p)] == db.nextSid && DepthOf(db, p) + 1 == |w[RootOf(db, p)]|
    ensures b.sessions[p].parent == BelowAt(w, RootOf(db, p), DepthOf(db, p))
  {
    var q, c := RootOf(db, p), db.nextSid;
    Located(db, v, p);
    AccessorsAgree(db, v, q, DepthOf(db, p));
    assert DepthOf(db, p) == |v[q]|;
    assert LinkedAt(db, v, q, |v[q]|);
    forall r, d | r in w && 0 <= d <= |w[r]| && !(At(w, r, d) == p && kind == CallFrame) ensures LinkedAt(b, w, r, d) {
      PushedLinkAt(db, v, b, w, p, kind, r, d);
    }
  }

  lemma PushedLinkAt(db: Db, v: View, b: Db, w: View, p: Sid, kind: FrameKind, r: Sid, d: nat)
    requires Good(db, v) && p in db.sessions && db.nextSid !in db.sessions && db.nextSid !in db.frames
    requires var q := RootOf(db, p);
             q in v && At(v, q, |v[q]|) == p && w == v[q := v[q] + [db.nextSid]]
    requires exists row: Session, callStep :: IsPush(db, b, p, row, kind, callStep) && row.called == None && row.parent == Some(p)
    requires r in w && d <= |w[r]| && !(At(w, r, d) == p && kind == CallFrame)
    ensures LinkedAt(b, w, r, d)
  {
    var q, c := RootOf(db, p), db.nextSid;
    if r == q && d == |v[q]| + 1 {
      assert At(w, q, d) == c && BelowAt(w, q, d) == Some(p);
    } else {
      assert At(w, r, d) == At(v, r, d) && LinkedAt(db, v, r, d);
      assert d > 0 ==> At(w, r, d - 1) == At(v, r, d - 1);
      if d < |v[r]| {
        assert FrameAt(db, v[r][d], r, d + 1) && w[r][d] == v[r][d];
      } else if r == q {
        assert w[r][d] == c;
      }
    }
  }

  /** Pushing a digression needs no link column. */
  lemma DigressionPushedGood(db: Db, v: View, b: Db, p: Sid, row: Session, callStep: Option<StepId>)
    requires Good(db, v) && p in db.sessions && TopFrame(db, p) == None
    requires IsPush(db, b, p, row, DigressionFrame, callStep) && row.called == None && row.parent == Some(p)
    ensures RootOf(db, p) in v && Good(b, v[RootOf(db, p) := v[RootOf(db, p)] + [db.nextSid]])
  {
    FramePushed(db, v, b, p, row, DigressionFrame, callStep);
    PushedLinks(db, v, b, v[RootOf(db, p) := v[RootOf(db, p)] + [db.nextSid]], p, row, DigressionFrame, callStep);
  }

  /** Pushing a call frame and linking it from the caller. */
  lemma CallPushedGood(db: Db, v: View, b: Db, p: Sid, row: Session, callStep: Option<StepId>, step: StepId, now: int)
    requires Good(db, v) && p in db.sessions && TopFrame(db, p) == None
    requires IsPush(db, b, p, row, CallFrame, callStep) && row.called == None && row.parent == Some(p)
    ensures RootOf(db, p) in v && Good(LinkCalled(b, p, db.nextSid, step, now), v[RootOf(db, p) := v[RootOf(db, p)] + [db.nextSid]])
  {
    var w := v[RootOf(db, p) := v[RootOf(db, p)] + [db.nextSid]];
    FramePushed(db, v, b, p, row, CallFrame, callStep);
    PushedLinks(db, v, b, w, p, row, CallFrame, callStep);
    LinkingGood(b, w, p, RootOf(db, p), DepthOf(db, p), step, now);
  }

  lemma LinkingGood(b: Db, w: View, p: Sid, q: Sid, n: nat, step: StepId, now: int)
    requires Represents(b, w) && Issued(b) && p in b.sessions
    requires q in w && n < |w[q]| && At(w, q, n) == p && w[q][n] in b.frames && b.frames[w[q][n]].kind == CallFrame
    requires forall r, d :: r in w && 0 <= d <= |w[r]| ==> LinkedAt(b, w, r, d) || At(w, r, d) == p
    requires b.sessions[p].parent == BelowAt(w, q, n)
    ensures Good(LinkCalled(b, p, w[q][n], step, now), w)
  {
    var e := LinkCalled(b, p, w[q][n], step, now);
    SameFramesRepresents(b, e, w);
    forall r, d | r in w && 0 <= d <= |w[r]| ensures LinkedAt(e, w, r, d) {
      LocatedAt(b, w, r, d);
      LocatedAt(b, w, q, n);
      if At(w, r, d) != p {
        assert LinkedAt(b, w, r, d);
        assert CalledAt(e, w, r, d) == CalledAt(b, w, r, d);
      }
    }
  }

  /** Frames may differ in their call_step_id; the stacks do not depend on it. */
  lemma SameFramesRepresents(a: Db, b: Db, v: View)
    requires Represents(a, v) && a.sessions.Keys == b.sessions.Keys && a.frames.Keys == b.frames.Keys
    requires forall f :: f in a.frames ==> a.frames[f].root == b.frames[f].root && a.frames[f].depth == b.frames[f].depth
    ensures Represents(b, v)
  {
    forall f | f in b.frames ensures Framed(b, v, f) {
      assert Framed(a, v, f);
    }
    forall r, i | r in v && 0 <= i < |v[r]| ensures FrameAt(b, v[r][i], r, i + 1) {
      assert FrameAt(a, v[r][i], r, i + 1);
    }
  }

  // --- Popping a frame --------------------------------------------------------------------------

  ghost function Popped(v: View, r: Sid): View
    requires r in v && v[r] != []
  {
    v[r := v[r][..|v[r]| - 1]]
  }

  lemma PoppedLinks(db: Db, v: View, c: Sid)
    requires Good(db, v) && c in db.frames && TopFrame(db, c) == None
    ensures var r := db.frames[c].root;
            && r in v && v[r] != [] && v[r][|v[r]| - 1] == c && Represents(Remove(db, {c}), Popped(v, r))
            && Issued(Remove(db, {c}))
            && ParentOf(db, c) == Some(At(v, r, |v[r]| - 1))
            && (forall q, d :: q in Popped(v, r) && 0 <= d <= |Popped(v, r)[q]| ==>
                  LinkedAt(Remove(db, {c}), Popped(v, r), q, d)
                  || (q == r && d == |v[r]| - 1 && db.frames[c].kind == CallFrame))
            && Remove(db, {c}).sessions[At(v, r, |v[r]| - 1)].parent == BelowAt(Popped(v, r), r, |v[r]| - 1)
  {
    var r := db.frames[c].root;
    TopRemoved(db, v, c);
    Located(db, v, c);
    AccessorsAgree(db, v, r, DepthOf(db, c));
    var b, w := Remove(db, {c}), Popped(v, r);
    assert LinkedAt(db, v, r, |v[r]| - 1);
    LocatedAt(b, w, r, |v[r]| - 1);
    forall q, d | q in w && 0 <= d <= |w[q]| && !(q == r && d == |v[r]| - 1 && db.frames[c].kind == CallFrame)
      ensures LinkedAt(b, w, q, d)
    {
      PoppedLinkAt(db, v, c, r, q, d);
    }
  }

  lemma PoppedLinkAt(db: Db, v: View, c: Sid, r: Sid, q: Sid, d: nat)
    requires Linked(db, v) && c in db.frames && r in v && v[r] != [] && v[r][|v[r]| - 1] == c
    requires Represents(Remove(db, {c}), Popped(v, r))
    requires q in v && d <= |Popped(v, r)[q]| && !(q == r && d == |v[r]| - 1 && db.frames[c].kind == CallFrame)
    ensures LinkedAt(Remove(db, {c}), Popped(v, r), q, d)
  {
    var b, w := Remove(db, {c}), Popped(v, r);
    LocatedAt(b, w, q, d);
    assert LinkedAt(db, v, q, d) && At(w, q, d) == At(v, q, d);
    if d < |w[q]| {
      assert FrameAt(b, w[q][d], q, d + 1);
    }
  }

  /** Deleting a digression child from the top of its stack. */
  lemma DigressionPoppedGood(db: Db, v: View, c: Sid)
    requires Good(db, v) && c in db.frames && db.frames[c].kind == DigressionFrame && TopFrame(db, c) == None
    ensures var r := db.frames[c].root; r in v && v[r] != [] && Good(DeleteSession(db, c), Popped(v, r))
  {
    PoppedLinks(db, v, c);
  }

  /** Deleting any child from the top of its stack and clearing the parent's link. */
  lemma ChildPoppedGood(db: Db, v: View, c: Sid, p: Sid, now: int)
    requires Good(db, v) && c in db.frames && TopFrame(db, c) == None && ParentOf(db, c) == Some(p)
    ensures var r := db.frames[c].root; r in v && v[r] != [] && Good(ClearCalled(DeleteSession(db, c), p, now), Popped(v, r))
  {
    PoppedLinks(db, v, c);
    var r := db.frames[c].root;
    ClearingGood(Remove(db, {c}), Popped(v, r), p, r, now);
  }

  lemma ClearingGood(b: Db, w: View, p: Sid, r: Sid, now: int)
    requires Represents(b, w) && Issued(b) && r in w && At(w, r, |w[r]|) == p
    requires forall q, d :: q in w && 0 <= d <= |w[q]| ==> LinkedAt(b, w, q, d) || (q == r && d == |w[r]|)
    requires p in b.sessions && b.sessions[p].parent == BelowAt(w, r, |w[r]|)
    ensures Good(ClearCalled(b, p, now), w)
  {
    var e := ClearCalled(b, p, now);
    LocatedAt(b, w, r, |w[r]|);
    AccessorsAgree(b, w, r, |w[r]|);
    assert e.frames == b.frames;
    SameFramesRepresents(b, e, w);
    forall q, d | q in w && 0 <= d <= |w[q]| ensures LinkedAt(e, w, q, d) {
      LocatedAt(b, w, q, d);
      if !(q == r && d == |w[r]|) {
        assert LinkedAt(b, w, q, d);
        assert CalledAt(e, w, q, d) == CalledAt(b, w, q, d);
      }
    }
  }

  /** Deleting a root that has nothing above it. */
  lemma RootRemovedGood(db: Db, v: View, r: Sid)
    requires Good(db, v) && r in db.sessions && r !in db.frames && TopFrame(db, r) == None
    ensures Good(DeleteSession(db, r), v - {r})
  {
    RootRemoved(db, v, r);
    var b, w := Remove(db, {r}), v - {r};
    forall q, d | q in w && 0 <= d <= |w[q]| ensures LinkedAt(b, w, q, d) {
      LocatedAt(b, w, q, d);
      assert LinkedAt(db, v, q, d);
      if d < |w[q]| {
        assert FrameAt(b, w[q][d], q, d + 1);
      }
    }
  }
}
