/** The bounded cache that dedupes denial warnings: megalos_server/ratelimit.py
    `_DenyLogDedupe`. */
module DenyLog {
  import opened Sequences

  datatype Key = Key(scope: string, identity: string)

  const SWEEP_EVERY: nat := 64

  /** Keys from least to most recently used, the time of each one's last emission, and the count
      of accesses. */
  datatype Cache = Cache(order: seq<Key>, stamps: map<Key, real>, accesses: nat)

  datatype Limits = Limits(window: real, idleTtl: real, max: nat)

  ghost predicate ValidCache(c: Cache) {
    Distinct(c.order) && forall k :: k in c.order <==> k in c.stamps
  }

  function Live(stamps: map<Key, real>, cutoff: real): set<Key> {
    set k | k in stamps && stamps[k] >= cutoff
  }

  function Swept(c: Cache, lim: Limits, now: real): Cache {
    if lim.idleTtl <= 0.0 then c
    else
      var keep := Live(c.stamps, now - lim.idleTtl);
      c.(order := Filter(c.order, keep), stamps := Restrict(c.stamps, keep))
  }

  function Capped(c: Cache, max: nat): Cache {
    if |c.order| <= max then c
    else c.(order := Newest(c.order, max), stamps := Restrict(c.stamps, Members(Newest(c.order, max))))
  }

  function Touched(c: Cache, lim: Limits, now: real): Cache {
    var c1 := c.(accesses := c.accesses + 1);
    if c1.accesses % SWEEP_EVERY == 0 then Swept(c1, lim, now) else c1
  }

  function Decide(c: Cache, lim: Limits, key: Key, now: real): (Cache, bool) {
    if key in c.stamps && now - c.stamps[key] < lim.window then
      (c.(order := MoveToEnd(c.order, key)), false)
    else
      (Capped(c.(order := MoveToEnd(c.order, key), stamps := c.stamps[key := now]), lim.max), true)
  }

  /** `should_emit` */
  function ShouldEmit(c: Cache, lim: Limits, key: Key, now: real): (Cache, bool) {
    Decide(Touched(c, lim, now), lim, key, now)
  }

  // --- The class --------------------------------------------------------------------------------

  class DenyLogDedupe {
    const lim: Limits
    var order: seq<Key>
    var stamps: map<Key, real>
    var accessCount: nat

    constructor (window: real, idleTtl: real, max: nat)
      ensures lim == Limits(window, idleTtl, max) && Contents() == Cache([], map[], 0)
    {
      lim := Limits(window, idleTtl, max);
      order, stamps, accessCount := [], map[], 0;
    }

    function Contents(): Cache
      reads this
    {
      Cache(order, stamps, accessCount)
    }

    method EvictIfOverCap()
      requires ValidCache(Contents())
      modifies this`order, this`stamps
      ensures Contents() == Capped(old(Contents()), lim.max)
    {
      ghost var before := Contents();
      ghost var n := 0;
      assert before.order[0..] == before.order && Restrict(before.stamps, Members(before.order)) == before.stamps;
      while |order| > lim.max
        invariant n <= |before.order| && order == before.order[n..]
        invariant n > 0 ==> |order| >= lim.max
        invariant stamps == Restrict(before.stamps, Members(order))
      {
        OldestOut(before.order, before.stamps, n);
        assert before.order[n + 1..] == order[1..];
        stamps := stamps - {order[0]};
        order := order[1..];
        n := n + 1;
      }
    }

    method SweepExpired(now: real)
      requires ValidCache(Contents())
      modifies this`order, this`stamps
      ensures Contents() == Swept(old(Contents()), lim, now)
    {
      if lim.idleTtl <= 0.0 {
        return;
      }
      var cutoff := now - lim.idleTtl;
      var expired := set k | k in stamps && stamps[k] < cutoff;
      var kept := set k | k in stamps && stamps[k] >= cutoff;
      assert kept == Live(stamps, cutoff) && stamps - expired == Restrict(stamps, kept);
      order, stamps := Filter(order, kept), stamps - expired;
    }

    /** should_emit */
    method Emit(key: Key, now: real) returns (emit: bool)
      requires ValidCache(Contents())
      modifies this
      ensures ValidCache(Contents())
      ensures (Contents(), emit) == ShouldEmit(old(Contents()), lim, key, now)
    {
      hide Swept, Capped, MoveToEnd, Distinct;
      EmitKeepsValid(Contents(), lim, key, now);
      TouchedIsValid(Contents(), lim, now);
      accessCount := accessCount + 1;
      if accessCount % SWEEP_EVERY == 0 {
        SweepExpired(now);
      }
      assert Contents() == Touched(old(Contents()), lim, now);
      if key in stamps && now - stamps[key] < lim.window {
        order := MoveToEnd(order, key);
        return false;
      }
      PutKeepsValid(Contents(), key, now);
      stamps := stamps[key := now];
      order := MoveToEnd(order, key);
      EvictIfOverCap();
      return true;
    }
  }

  lemma TouchedIsValid(c: Cache, lim: Limits, now: real)
    requires ValidCache(c)
    ensures ValidCache(Touched(c, lim, now))
  {
    FilterDistinct(c.order, Live(c.stamps, now - lim.idleTtl));
  }

  lemma PutKeepsValid(c: Cache, key: Key, now: real)
    requires ValidCache(c)
    ensures ValidCache(c.(order := MoveToEnd(c.order, key), stamps := c.stamps[key := now]))
    ensures key in c.stamps ==> ValidCache(c.(order := MoveToEnd(c.order, key)))
  {
    FilterDistinct(c.order, (set y | y in c.order) - {key});
  }

  lemma DecideKeepsValid(c: Cache, lim: Limits, key: Key, now: real)
    requires ValidCache(c)
    ensures ValidCache(Decide(c, lim, key, now).0)
  {
    PutKeepsValid(c, key, now);
    var put := c.(order := MoveToEnd(c.order, key), stamps := c.stamps[key := now]);
    NewestKeys(put.order, put.stamps, lim.max);
  }

  lemma EmitKeepsValid(c: Cache, lim: Limits, key: Key, now: real)
    requires ValidCache(c)
    ensures ValidCache(ShouldEmit(c, lim, key, now).0)
  {
    hide Touched, Decide;
    TouchedIsValid(c, lim, now);
    DecideKeepsValid(Touched(c, lim, now), lim, key, now);
  }

  // --- The bound and the sweep are invisible ---------------------------------------------------------

  /** The unbounded reference: the time of the last emission of every key. */
  function Reference(last: map<Key, real>, window: real, key: Key, now: real): (map<Key, real>, bool) {
    if key in last && now - last[key] < window then (last, false) else (last[key := now], true)
  }

  /** The cache agrees with the reference, except for keys whose window is over at `now`. */
  ghost predicate Agrees(c: Cache, lim: Limits, last: map<Key, real>, now: real) {
    && (forall k :: k in c.stamps ==> k in last && last[k] == c.stamps[k])
    && (forall k :: k in last && k !in c.stamps ==> now - last[k] >= lim.window)
  }

  lemma TouchedAgrees(c: Cache, lim: Limits, last: map<Key, real>, before: real, now: real)
    requires Agrees(c, lim, last, before) && before <= now && (lim.idleTtl >= lim.window || lim.idleTtl <= 0.0)
    ensures Agrees(Touched(c, lim, now), lim, last, now)
  {
  }

  lemma OrderFits(c: Cache, key: Key, now: real, keys: set<Key>)
    requires ValidCache(c) && c.stamps.Keys + {key} <= keys
    ensures |MoveToEnd(c.order, key)| <= |keys|
  {
    PutKeepsValid(c, key, now);
    DistinctCount(MoveToEnd(c.order, key), keys);
  }

  lemma DecideRefines(c: Cache, lim: Limits, last: map<Key, real>, key: Key, now: real)
    requires Agrees(c, lim, last, now) && |MoveToEnd(c.order, key)| <= lim.max
    ensures var (c', emit) := Decide(c, lim, key, now);
            var (last', emit') := Reference(last, lim.window, key, now);
            emit == emit' && Agrees(c', lim, last', now)
  {
    hide MoveToEnd;
  }

  /** One call: with a clock that does not go back, at most `max` distinct keys, and an idle limit
      of at least the window, the cache answers as the unbounded reference does. */
  lemma EmitRefines(c: Cache, lim: Limits, last: map<Key, real>, before: real, key: Key, now: real, keys: set<Key>)
    requires ValidCache(c) && Agrees(c, lim, last, before) && before <= now
    requires lim.idleTtl >= lim.window || lim.idleTtl <= 0.0
    requires last.Keys + {key} <= keys && |keys| <= lim.max
    ensures var (c', emit) := ShouldEmit(c, lim, key, now);
            var (last', emit') := Reference(last, lim.window, key, now);
            emit == emit' && ValidCache(c') && Agrees(c', lim, last', now) && last'.Keys <= keys
  {
    hide Touched, Decide;
    TouchedIsValid(c, lim, now);
    TouchedAgrees(c, lim, last, before, now);
    OrderFits(Touched(c, lim, now), key, now, keys);
    EmitKeepsValid(c, lim, key, now);
    DecideRefines(Touched(c, lim, now), lim, last, key, now);
  }

  datatype Tick = Tick(key: Key, now: real)

  function Answers(c: Cache, lim: Limits, calls: seq<Tick>): seq<bool>
    decreases |calls|
  {
    if calls == [] then []
    else
      var (c', emit) := ShouldEmit(c, lim, calls[0].key, calls[0].now);
      [emit] + Answers(c', lim, calls[1..])
  }

  function ReferenceAnswers(last: map<Key, real>, window: real, calls: seq<Tick>): seq<bool>
    decreases |calls|
  {
    if calls == [] then []
    else
      var (last', emit) := Reference(last, window, calls[0].key, calls[0].now);
      [emit] + ReferenceAnswers(last', window, calls[1..])
  }

  ghost predicate Forward(before: real, calls: seq<Tick>) {
    (calls != [] ==> before <= calls[0].now) && forall i, j :: 0 <= i < j < |calls| ==> calls[i].now <= calls[j].now
  }

  /** Every answer over a whole sequence of calls. */
  lemma {:induction false} BoundedLogIsInvisible(c: Cache, lim: Limits, last: map<Key, real>, before: real, calls: seq<Tick>, keys: set<Key>)
    requires ValidCache(c) && Agrees(c, lim, last, before) && Forward(before, calls)
    requires lim.idleTtl >= lim.window || lim.idleTtl <= 0.0
    requires last.Keys <= keys && (forall t :: t in calls ==> t.key in keys) && |keys| <= lim.max
    ensures Answers(c, lim, calls) == ReferenceAnswers(last, lim.window, calls)
    decreases |calls|
  {
    hide ShouldEmit, ValidCache, Agrees;
    if calls != [] {
      var key, now := calls[0].key, calls[0].now;
      EmitRefines(c, lim, last, before, key, now, keys);
      BoundedLogIsInvisible(ShouldEmit(c, lim, key, now).0, lim, Reference(last, lim.window, key, now).0, now, calls[1..], keys);
    }
  }

  lemma {:induction false} SuppressedInWindow(last: map<Key, real>, window: real, calls: seq<Tick>, j: nat)
    requires j < |calls| && calls[j].key in last && calls[j].now - last[calls[j].key] < window
    requires forall i :: 0 <= i < j ==> calls[i].now <= calls[j].now
    ensures |ReferenceAnswers(last, window, calls)| == |calls| && !ReferenceAnswers(last, window, calls)[j]
    decreases |calls|
  {
    AnswerCount(last, window, calls);
    if j > 0 {
      var last' := Reference(last, window, calls[0].key, calls[0].now).0;
      assert calls[0].now <= calls[j].now;
      SuppressedInWindow(last', window, calls[1..], j - 1);
    }
  }

  lemma {:induction false} AnswerCount(last: map<Key, real>, window: real, calls: seq<Tick>)
    ensures |ReferenceAnswers(last, window, calls)| == |calls|
    decreases |calls|
  {
    if calls != [] {
      AnswerCount(Reference(last, window, calls[0].key, calls[0].now).0, window, calls[1..]);
    }
  }

  lemma {:induction false} ReferenceApart(last: map<Key, real>, window: real, calls: seq<Tick>, i: nat, j: nat)
    requires i < j < |calls| && calls[i].key == calls[j].key
    requires forall a, b :: 0 <= a < b < |calls| ==> calls[a].now <= calls[b].now
    ensures var answers := ReferenceAnswers(last, window, calls);
            |answers| == |calls| && (answers[i] && answers[j] ==> calls[j].now - calls[i].now >= window)
    decreases |calls|
  {
    var last' := Reference(last, window, calls[0].key, calls[0].now).0;
    AnswerCount(last, window, calls);
    if i > 0 {
      ReferenceApart(last', window, calls[1..], i - 1, j - 1);
    } else if calls[j].now - calls[0].now < window && ReferenceAnswers(last, window, calls)[0] {
      SuppressedInWindow(last', window, calls[1..], j - 1);
    }
  }

  /** From any cache, and so from the empty one, two lines for one key are at least a window
      apart. */
  lemma EmissionsAreApart(c: Cache, lim: Limits, calls: seq<Tick>, keys: set<Key>, i: nat, j: nat)
    requires ValidCache(c) && c.stamps.Keys <= keys
    requires forall a, b :: 0 <= a < b < |calls| ==> calls[a].now <= calls[b].now
    requires lim.idleTtl >= lim.window || lim.idleTtl <= 0.0
    requires (forall t :: t in calls ==> t.key in keys) && |keys| <= lim.max
    requires i < j < |calls| && calls[i].key == calls[j].key
    ensures var answers := Answers(c, lim, calls);
            |answers| == |calls| && (answers[i] && answers[j] ==> calls[j].now - calls[i].now >= lim.window)
  {
    hide Answers, ReferenceAnswers;
    BoundedLogIsInvisible(c, lim, c.stamps, calls[0].now, calls, keys);
    ReferenceApart(c.stamps, lim.window, calls, i, j);
  }

  // --- One call ---------------------------------------------------------------------------------------

  /** The key outlives this call's expiry sweep, which every 64th call makes. */
  ghost predicate Outlives(c: Cache, lim: Limits, key: Key, now: real) {
    key in c.stamps && ((c.accesses + 1) % 64 == 0 && lim.idleTtl > 0.0 ==> now - c.stamps[key] <= lim.idleTtl)
  }

  lemma TouchedMeans(c: Cache, lim: Limits, now: real)
    requires ValidCache(c)
    ensures var c1 := Touched(c, lim, now);
            && c1.accesses == c.accesses + 1
            && (forall k :: k in c1.stamps <==> Outlives(c, lim, k, now))
            && (forall k :: k in c1.stamps ==> c1.stamps[k] == c.stamps[k])
  {
  }

  lemma CappedMeans(c: Cache, max: nat)
    requires ValidCache(c)
    ensures var c1 := Capped(c, max);
            && c1.order == c.order[if |c.order| <= max then 0 else |c.order| - max..] && c1.accesses == c.accesses
            && (forall k :: k in c1.stamps <==> k in c1.order)
            && (forall k :: k in c1.stamps ==> k in c.stamps && c1.stamps[k] == c.stamps[k])
  {
    NewestKeys(c.order, c.stamps, max);
    assert c.order[0..] == c.order;
  }

  /** A line is suppressed exactly when the key outlives the sweep and its last line is less than a
      window ago, and then nothing but the order changes; a line let through is stamped now and most
      recently used, and only the least recently used keys over the cap lose their place. */
  lemma EmitMeans(c: Cache, lim: Limits, key: Key, now: real)
    requires ValidCache(c)
    ensures var (c', emit) := ShouldEmit(c, lim, key, now);
            var put := MoveToEnd(Touched(c, lim, now).order, key);
            && put[|put| - 1] == key && c'.accesses == c.accesses + 1
            && (emit <==> !(Outlives(c, lim, key, now) && now - c.stamps[key] < lim.window))
            && (if emit then
                  c'.order == put[if |put| <= lim.max then 0 else |put| - lim.max..] && (forall k :: k in c'.stamps <==> k in c'.order)
                  && (forall k :: k in c'.stamps ==> (k == key || k in c.stamps) && c'.stamps[k] == if k == key then now else c.stamps[k])
                else
                  c'.order == put && (forall k :: k in c'.stamps <==> Outlives(c, lim, k, now))
                  && (forall k :: k in c'.stamps ==> c'.stamps[k] == c.stamps[k]))
  {
    hide MoveToEnd, Touched, Capped, ValidCache;
    var c1 := Touched(c, lim, now);
    TouchedIsValid(c, lim, now);
    TouchedMeans(c, lim, now);
    PutKeepsValid(c1, key, now);
    LastMoved(c1.order, key);
    CappedMeans(c1.(order := MoveToEnd(c1.order, key), stamps := c1.stamps[key := now]), lim.max);
  }

  lemma LastMoved(order: seq<Key>, key: Key)
    ensures MoveToEnd(order, key) != [] && MoveToEnd(order, key)[|MoveToEnd(order, key)| - 1] == key
  {
  }
}
