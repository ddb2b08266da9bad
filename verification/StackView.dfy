/** The abstract view of the two tables: a map from each root to the sequence of sessions
    framed above it. */
module StackView {
  import opened Options
  import opened Workflows
  import opened Tables
  import opened Sequences

  type View = map<Sid, seq<Sid>>

  ghost predicate Framed(db: Db, v: View, f: Sid)
    requires f in db.frames
  {
    var fr := db.frames[f];
    fr.root in v && 1 <= fr.depth <= |v[fr.root]| && v[fr.root][fr.depth - 1] == f
  }

  /** Each root's frames are exactly one session per depth 1..n, and no root is framed. */
  ghost predicate Represents(db: Db, v: View) {
    && v.Keys == db.sessions.Keys - db.frames.Keys
    && db.frames.Keys <= db.sessions.Keys
    && (forall f :: f in db.frames ==> Framed(db, v, f))
    && (forall r, i :: r in v && 0 <= i < |v[r]| ==> FrameAt(db, v[r][i], r, i + 1))
  }

  ghost predicate WellFormed(db: Db) {
    exists v :: Represents(db, v)
  }

  /** The tables have at most one view. */
  lemma ViewUnique(db: Db, v: View, w: View)
    requires Represents(db, v) && Represents(db, w)
    ensures v == w
  {
    forall r | r in v ensures v[r] == w[r] {
      SameStack(db, v, w, r);
      SameStack(db, w, v, r);
    }
  }

  lemma SameStack(db: Db, v: View, w: View, r: Sid)
    requires Represents(db, v) && Represents(db, w) && r in v
    ensures |v[r]| <= |w[r]| && forall i :: 0 <= i < |v[r]| ==> v[r][i] == w[r][i]
  {
    forall i | 0 <= i < |v[r]| ensures i < |w[r]| && v[r][i] == w[r][i] {
      assert FrameAt(db, v[r][i], r, i + 1);
      assert Framed(db, w, v[r][i]);
    }
    var n := |v[r]|;
    if n > 0 {
      assert FrameAt(db, v[r][n - 1], r, n - 1 + 1);
      assert Framed(db, w, v[r][n - 1]);
    }
  }

  ghost function ViewOf(db: Db): (v: View)
    requires WellFormed(db)
    ensures Represents(db, v)
  {
    var v :| Represents(db, v);
    v
  }

  // --- Accessors agree with the view ------------------------------------------------------

  /** The session at a position of a stack; position 0 is the root itself. */
  ghost function At(v: View, r: Sid, d: nat): Sid
    requires r in v && d <= |v[r]|
  {
    if d == 0 then r else v[r][d - 1]
  }

  /** Every session is at exactly the position its RootOf and DepthOf say. */
  lemma Located(db: Db, v: View, s: Sid)
    requires Represents(db, v) && s in db.sessions
    ensures RootOf(db, s) in v && DepthOf(db, s) <= |v[RootOf(db, s)]|
    ensures At(v, RootOf(db, s), DepthOf(db, s)) == s
  {
    if s in db.frames {
      assert Framed(db, v, s);
    }
  }

  lemma LocatedAt(db: Db, v: View, r: Sid, d: nat)
    requires Represents(db, v) && r in v && d <= |v[r]|
    ensures At(v, r, d) in db.sessions && RootOf(db, At(v, r, d)) == r && DepthOf(db, At(v, r, d)) == d
  {
    if d > 0 {
      assert FrameAt(db, v[r][d - 1], r, d - 1 + 1);
    }
  }

  lemma FrameAtIs(db: Db, v: View, r: Sid, d: nat, f: Sid)
    requires Represents(db, v) && FrameAt(db, f, r, d)
    ensures r in v && 1 <= d <= |v[r]| && f == At(v, r, d)
  {
    assert Framed(db, v, f);
  }

  /** parent_of and top_frame_for read the neighbours in the view. */
  lemma AccessorsAgree(db: Db, v: View, r: Sid, d: nat)
    requires Represents(db, v) && r in v && d <= |v[r]|
    ensures ParentOf(db, At(v, r, d)) == (if d == 0 then None else Some(At(v, r, d - 1)))
    ensures TopFrame(db, At(v, r, d)) == (if d == |v[r]| then None else Some(At(v, r, d + 1)))
  {
    var s := At(v, r, d);
    LocatedAt(db, v, r, d);
    if d > 1 {
      LocatedAt(db, v, r, d - 1);
      assert FrameAt(db, v[r][d - 2], r, d - 2 + 1);
      var p := ParentOf(db, s);
      FrameAtIs(db, v, r, d - 1, p.value);
    }
    if d < |v[r]| {
      assert FrameAt(db, v[r][d], r, d + 1) && IsTopFrame(db, s, v[r][d]);
    }
    var t := TopFrame(db, s);
    if t.Some? {
      FrameAtIs(db, v, r, d + 1, t.value);
    }
  }

  /** parent_of and top_frame_for undo each other. */
  lemma ParentTopInverse(db: Db, s: Sid, c: Sid)
    requires WellFormed(db) && s in db.sessions && c in db.sessions
    ensures TopFrame(db, s) == Some(c) <==> ParentOf(db, c) == Some(s)
  {
    var v := ViewOf(db);
    Located(db, v, s);
    Located(db, v, c);
    AccessorsAgree(db, v, RootOf(db, s), DepthOf(db, s));
    AccessorsAgree(db, v, RootOf(db, c), DepthOf(db, c));
    if TopFrame(db, s) == Some(c) {
      LocatedAt(db, v, RootOf(db, s), DepthOf(db, s) + 1);
    }
    if ParentOf(db, c) == Some(s) {
      LocatedAt(db, v, RootOf(db, c), DepthOf(db, c) - 1);
    }
  }

  /** stack_depth of a root is the length of its stack. */
  lemma StackDepthAgrees(db: Db, v: View, r: Sid)
    requires Represents(db, v) && r in v
    ensures forall f :: f in FramesOf(db, r) <==> f in v[r]
    ensures StackDepth(db, r) == |v[r]|
  {
    forall f ensures f in FramesOf(db, r) <==> f in v[r] {
      if f in FramesOf(db, r) {
        assert Framed(db, v, f);
      }
      if f in v[r] {
        var i :| 0 <= i < |v[r]| && v[r][i] == f;
        assert FrameAt(db, v[r][i], r, i + 1);
      }
    }
    forall i, j | 0 <= i < j < |v[r]| ensures v[r][i] != v[r][j] {
      assert FrameAt(db, v[r][i], r, i + 1) && FrameAt(db, v[r][j], r, j + 1);
    }
    ElementCount(v[r], FramesOf(db, r));
  }

  // --- Rows that do not touch the shape ---------------------------------------------------

  lemma SameShapeRepresents(a: Db, b: Db, v: View)
    requires SameShape(a, b) && Represents(a, v)
    ensures Represents(b, v)
  {
    forall f | f in b.frames ensures Framed(b, v, f) {
      assert Framed(a, v, f);
    }
    forall r, i | r in v && 0 <= i < |v[r]| ensures FrameAt(b, v[r][i], r, i + 1) {
      assert FrameAt(a, v[r][i], r, i + 1);
    }
  }

  // --- Adding ------------------------------------------------------------------------------

  /** Every id in the tables has been handed out. */
  ghost predicate Issued(db: Db) {
    && (forall s :: s in db.sessions ==> s < db.nextSid)
    && (forall f :: f in db.frames ==> f < db.nextSid && db.frames[f].root < db.nextSid)
  }

  lemma RootAdded(db: Db, v: View, b: Db, row: Session)
    requires Represents(db, v) && Issued(db)
    requires b == Db(db.sessions[db.nextSid := row], db.frames, db.nextSid + 1)
    ensures Represents(b, v[db.nextSid := []])
  {
    var w := v[db.nextSid := []];
    assert db.nextSid !in db.sessions && db.nextSid !in db.frames;
    forall f | f in b.frames ensures Framed(b, w, f) {
      assert Framed(db, v, f);
    }
    forall r, i | r in w && 0 <= i < |w[r]| ensures FrameAt(b, w[r][i], r, i + 1) {
      assert FrameAt(db, v[r][i], r, i + 1);
    }
  }

  ghost predicate IsPush(db: Db, b: Db, p: Sid, row: Session, kind: FrameKind, callStep: Option<StepId>) {
    b == Db(db.sessions[db.nextSid := row],
            db.frames[db.nextSid := Frame(RootOf(db, p), DepthOf(db, p) + 1, kind, callStep)],
            db.nextSid + 1)
  }

  /** A frame put above a session that has none above it extends that root's stack by one. */
  lemma FramePushed(db: Db, v: View, b: Db, p: Sid, row: Session, kind: FrameKind, callStep: Option<StepId>)
    requires Represents(db, v) && Issued(db) && p in db.sessions
    requires IsPush(db, b, p, row, kind, callStep)
    requires TopFrame(db, p) == None
    ensures RootOf(db, p) in v && Represents(b, v[RootOf(db, p) := v[RootOf(db, p)] + [db.nextSid]])
  {
    var r, c := RootOf(db, p), db.nextSid;
    Located(db, v, p);
    AccessorsAgree(db, v, r, DepthOf(db, p));
    var w := v[r := v[r] + [c]];
    assert c !in db.sessions && c !in db.frames;
    forall f | f in b.frames ensures Framed(b, w, f) {
      if f != c {
        assert Framed(db, v, f);
      }
    }
    forall q, i | q in w && 0 <= i < |w[q]| ensures FrameAt(b, w[q][i], q, i + 1) {
      if q != r || i < |v[r]| {
        assert FrameAt(db, v[q][i], q, i + 1);
      }
    }
  }

  lemma OneFramePerDepth(db: Db, v: View, f: Sid, g: Sid, r: Sid, d: nat)
    requires Represents(db, v) && FrameAt(db, f, r, d) && FrameAt(db, g, r, d)
    ensures f == g
  {
    assert Framed(db, v, f) && Framed(db, v, g);
  }

  lemma SameDepthSameFrame(db: Db, f: Sid, g: Sid, r: Sid, d: nat)
    requires FrameAt(db, f, r, d) && FrameAt(db, g, r, d)
    ensures WellFormed(db) ==> f == g
  {
    if WellFormed(db) {
      OneFramePerDepth(db, ViewOf(db), f, g, r, d);
    }
  }

  /** ... and only then: a second frame at the same depth has no view. */
  lemma PushKeepsWellFormedIff(db: Db, b: Db, p: Sid, row: Session, kind: FrameKind, callStep: Option<StepId>)
    requires WellFormed(db) && Issued(db) && p in db.sessions
    requires IsPush(db, b, p, row, kind, callStep)
    ensures WellFormed(b) <==> TopFrame(db, p) == None
  {
    var v := ViewOf(db);
    if TopFrame(db, p) == None {
      FramePushed(db, v, b, p, row, kind, callStep);
    } else {
      SameDepthSameFrame(b, TopFrame(db, p).value, db.nextSid, RootOf(db, p), DepthOf(db, p) + 1);
    }
  }

  // --- Removing ----------------------------------------------------------------------------

  /** No removed session is directly below a frame that stays. */
  ghost predicate Liftable(db: Db, victims: set<Sid>) {
    forall f, p :: f in db.frames && f !in victims && ParentOf(db, f) == Some(p) ==> p !in victims
  }

  /** How many sessions from the bottom of a stack survive before the first victim. */
  function Survivors(xs: seq<Sid>, victims: set<Sid>): (n: nat)
    ensures n <= |xs|
    ensures forall i :: 0 <= i < n ==> xs[i] !in victims
    ensures n < |xs| ==> xs[n] in victims
  {
    if xs == [] || xs[0] in victims then 0 else 1 + Survivors(xs[1..], victims)
  }

  ghost function Without(v: View, victims: set<Sid>): View {
    map r | r in v && r !in victims :: v[r][..Survivors(v[r], victims)]
  }

  lemma {:induction false} VictimsAbove(db: Db, v: View, victims: set<Sid>, r: Sid, i: nat, j: nat)
    requires Represents(db, v) && Liftable(db, victims) && r in v && i <= j <= |v[r]|
    requires At(v, r, i) in victims
    ensures At(v, r, j) in victims
    decreases j - i
  {
    if i < j {
      AccessorsAgree(db, v, r, i + 1);
      LocatedAt(db, v, r, i + 1);
      VictimsAbove(db, v, victims, r, i + 1, j);
    }
  }

  lemma RemovalRepresents(db: Db, v: View, victims: set<Sid>)
    requires Represents(db, v) && Liftable(db, victims)
    ensures Represents(Remove(db, victims), Without(v, victims))
  {
    hide Liftable;
    var b, w := Remove(db, victims), Without(v, victims);
    assert w.Keys == b.sessions.Keys - b.frames.Keys;
    forall f | f in b.frames ensures Framed(b, w, f) {
      assert Framed(db, v, f);
      var r, d := db.frames[f].root, db.frames[f].depth;
      if r in victims {
        VictimsAbove(db, v, victims, r, 0, d);
      }
      var n := Survivors(v[r], victims);
      if d > n {
        VictimsAbove(db, v, victims, r, n + 1, d);
      }
    }
    forall r, i | r in w && 0 <= i < |w[r]| ensures FrameAt(b, w[r][i], r, i + 1) {
      assert FrameAt(db, v[r][i], r, i + 1);
    }
  }

  /** Removing sessions keeps the tables well formed if and only if none of them is directly
      below a frame that stays. */
  lemma RemovalKeepsWellFormedIff(db: Db, victims: set<Sid>)
    requires WellFormed(db)
    ensures WellFormed(Remove(db, victims)) <==> Liftable(db, victims)
  {
    var v := ViewOf(db);
    if Liftable(db, victims) {
      RemovalRepresents(db, v, victims);
    } else {
      var f, p :| f in db.frames && f !in victims && ParentOf(db, f) == Some(p) && p in victims;
      if WellFormed(Remove(db, victims)) {
        NoOrphan(db, v, victims, ViewOf(Remove(db, victims)), f, p);
      }
    }
  }

  lemma NoOrphan(db: Db, v: View, victims: set<Sid>, w: View, f: Sid, p: Sid)
    requires Represents(db, v) && Represents(Remove(db, victims), w)
    requires f in db.frames && f !in victims && ParentOf(db, f) == Some(p)
    ensures p !in victims
  {
    var b := Remove(db, victims);
    var r, d := db.frames[f].root, db.frames[f].depth;
    assert FrameAt(b, f, r, d);
    FrameAtIs(b, w, r, d, f);
    FrameAtIs(db, v, r, d, f);
    AccessorsAgree(db, v, r, d);
    if d > 1 {
      LocatedAt(b, w, r, d - 1);
      var g := At(w, r, d - 1);
      assert FrameAt(db, g, r, d - 1);
      FrameAtIs(db, v, r, d - 1, g);
    }
  }

  lemma SingleRemovalLiftable(db: Db, s: Sid)
    requires WellFormed(db) && s in db.sessions
    ensures Liftable(db, {s}) <==> TopFrame(db, s) == None
  {
    var v := ViewOf(db);
    Located(db, v, s);
    AccessorsAgree(db, v, RootOf(db, s), DepthOf(db, s));
    var t := TopFrame(db, s);
    if t.Some? {
      ParentTopInverse(db, s, t.value);
      assert t.value != s;
    }
    forall f, p | t.None? && f in db.frames && f !in {s} && ParentOf(db, f) == Some(p) ensures p !in {s} {
      if p == s {
        ParentTopInverse(db, s, f);
      }
    }
  }

  /** Removing one session keeps the tables well formed exactly when nothing is framed above it. */
  lemma SingleRemovalIff(db: Db, s: Sid)
    requires WellFormed(db) && s in db.sessions
    ensures WellFormed(Remove(db, {s})) <==> TopFrame(db, s) == None
  {
    RemovalKeepsWellFormedIff(db, {s});
    SingleRemovalLiftable(db, s);
  }

  lemma SurvivorsOfOne(db: Db, v: View, q: Sid, s: Sid)
    requires Represents(db, v) && q in v && s in db.sessions
    ensures RootOf(db, s) != q || DepthOf(db, s) == 0 ==> Survivors(v[q], {s}) == |v[q]|
    ensures RootOf(db, s) == q && DepthOf(db, s) > 0 ==> Survivors(v[q], {s}) == DepthOf(db, s) - 1
  {
    Located(db, v, s);
    var n := Survivors(v[q], {s});
    if n < |v[q]| {
      LocatedAt(db, v, q, n + 1);
    }
  }

  lemma WithoutTop(v: View, r: Sid, c: Sid)
    requires r in v && v[r] != [] && c !in v
    requires forall q :: q in v ==> Survivors(v[q], {c}) == (if q == r then |v[r]| - 1 else |v[q]|)
    ensures Without(v, {c}) == v[r := v[r][..|v[r]| - 1]]
  {
    var w := v[r := v[r][..|v[r]| - 1]];
    forall q | q in v ensures Without(v, {c})[q] == w[q] {
      assert v[q][..|v[q]|] == v[q];
    }
  }

  lemma WithoutRoot(v: View, r: Sid)
    requires forall q :: q in v && q != r ==> Survivors(v[q], {r}) == |v[q]|
    ensures Without(v, {r}) == v - {r}
  {
    forall q | q in v && q != r ensures Without(v, {r})[q] == v[q] {
      assert v[q][..|v[q]|] == v[q];
    }
  }

  /** Taking a framed session off the top of its stack. */
  lemma TopPlace(db: Db, v: View, c: Sid)
    requires Represents(db, v) && c in db.frames && TopFrame(db, c) == None
    ensures var r := db.frames[c].root; r in v && v[r] != [] && v[r][|v[r]| - 1] == c && DepthOf(db, c) == |v[r]|
    ensures c in db.sessions && c !in v
  {
    hide TopFrame, ParentOf;
    Located(db, v, c);
    AccessorsAgree(db, v, db.frames[c].root, DepthOf(db, c));
  }

  lemma TopRemoved(db: Db, v: View, c: Sid)
    requires Represents(db, v) && c in db.frames && TopFrame(db, c) == None
    ensures var r := db.frames[c].root;
            && r in v && |v[r]| > 0 && v[r][|v[r]| - 1] == c
            && Represents(Remove(db, {c}), v[r := v[r][..|v[r]| - 1]])
  {
    hide TopFrame, ParentOf, Liftable, Represents, Remove;
    var r := db.frames[c].root;
    TopPlace(db, v, c);
    forall q | q in v ensures Survivors(v[q], {c}) == (if q == r then |v[r]| - 1 else |v[q]|) {
      SurvivorsOfOne(db, v, q, c);
    }
    WithoutTop(v, r, c);
    SingleRemovalLiftable(db, c);
    RemovalRepresents(db, v, {c});
  }

  /** Deleting a root with nothing above it. */
  lemma RootRemoved(db: Db, v: View, r: Sid)
    requires Represents(db, v) && r in db.sessions && r !in db.frames && TopFrame(db, r) == None
    ensures Represents(Remove(db, {r}), v - {r})
  {
    forall q | q in v && q != r ensures Survivors(v[q], {r}) == |v[q]| {
      SurvivorsOfOne(db, v, q, r);
    }
    WithoutRoot(v, r);
    SingleRemovalLiftable(db, r);
    RemovalRepresents(db, v, {r});
  }
}
