/** What the bounded per-IP store guarantees over whole runs: it answers like an unbounded
    map of buckets, and its LRU order is the order of idleness. */
module StoreRefinement {
  import opened Sequences
  import opened TokenBuckets
  import opened RateLimiting

  datatype Request = Request(key: Key, call: Call)

  /** Burst and refill rate of the axis. */
  datatype Axis = Axis(capacity: real, rate: real)

  function Run(st: Store, lim: Limits, ax: Axis, reqs: seq<Request>): seq<Answer>
    decreases |reqs|
  {
    if reqs == [] then []
    else
      var (st', a) := TryConsume(st, lim, ax.capacity, ax.rate, reqs[0].key, reqs[0].call);
      [a] + Run(st', lim, ax, reqs[1..])
  }

  /** The same request on a map that never forgets a bucket. */
  function PlainConsume(m: map<Key, Bucket>, ax: Axis, key: Key, c: Call): (map<Key, Bucket>, Answer) {
    var b := if key in m then m[key] else NewBucket(ax.capacity, ax.rate, c.now);
    var (b', a) := Consume(b, c);
    (m[key := b'], a)
  }

  function PlainRun(m: map<Key, Bucket>, ax: Axis, reqs: seq<Request>): seq<Answer>
    decreases |reqs|
  {
    if reqs == [] then []
    else
      var (m', a) := PlainConsume(m, ax, reqs[0].key, reqs[0].call);
      [a] + PlainRun(m', ax, reqs[1..])
  }

  ghost predicate BucketOf(ax: Axis, b: Bucket, t: real) {
    Sound(b) && b.capacity == ax.capacity && b.rate == ax.rate && b.lastRefill <= t
  }

  /** The store holds a part of the map; whatever it forgot has been idle past the TTL. */
  ghost predicate Refines(st: Store, m: map<Key, Bucket>, lim: Limits, ax: Axis, t: real) {
    && ValidStore(st)
    && (forall k :: k in m ==> BucketOf(ax, m[k], t))
    && (forall k :: k in st.buckets ==> k in m && st.buckets[k] == m[k])
    && (forall k :: k in m && k !in st.buckets ==> lim.idleTtl > 0.0 && m[k].lastRefill + lim.idleTtl < t)
  }

  /** Configuration under which forgetting an idle bucket cannot be noticed. */
  ghost predicate IdleMeansFull(lim: Limits, ax: Axis) {
    ax.capacity >= 0.0 && ax.rate >= 0.0 && (lim.idleTtl > 0.0 ==> lim.idleTtl * ax.rate >= ax.capacity)
  }

  lemma IdleBucketIsFull(lim: Limits, ax: Axis, b: Bucket, now: real)
    requires IdleMeansFull(lim, ax) && lim.idleTtl > 0.0
    requires BucketOf(ax, b, now) && b.lastRefill + lim.idleTtl < now
    ensures Refill(b, now) == Refill(NewBucket(ax.capacity, ax.rate, now), now)
  {
    var elapsed := now - b.lastRefill;
    MulMonotone(ax.rate, lim.idleTtl, elapsed);
    assert ax.rate * elapsed == elapsed * ax.rate && ax.rate * lim.idleTtl == lim.idleTtl * ax.rate;
  }

  /** Replacing a bucket by a new one is invisible to every request at that moment if and
      only if the bucket would have refilled to capacity. */
  lemma ForgettingInvisibleIff(b: Bucket, now: real)
    requires Sound(b) && b.lastRefill <= now
    ensures Refill(b, now).tokens == b.capacity <==>
            forall n: nat :: Consume(b, Call(now, n)) == Consume(NewBucket(b.capacity, b.rate, now), Call(now, n))
  {
    var full := NewBucket(b.capacity, b.rate, now);
    assert Refill(full, now) == full;
    if Refill(b, now).tokens == b.capacity {
      assert Refill(b, now) == full;
    } else {
      assert Consume(b, Call(now, 0)).0.tokens == Refill(b, now).tokens by {
        ConsumeKeepsSound(b, Call(now, 0));
        RefillNonNegative(b, now);
      }
      assert Consume(full, Call(now, 0)).0.tokens == b.capacity;
    }
  }

  lemma RefillNonNegative(b: Bucket, now: real)
    requires Sound(b)
    ensures Refill(b, now).tokens >= 0.0
  {
    var elapsed := if now - b.lastRefill < 0.0 then 0.0 else now - b.lastRefill;
    assert elapsed * b.rate >= 0.0;
  }

  lemma SweepRefines(st: Store, m: map<Key, Bucket>, lim: Limits, ax: Axis, t: real, now: real)
    requires Refines(st, m, lim, ax, t) && now >= t
    ensures Refines(Counted(st, lim, now), m, lim, ax, now)
  {
    CountedKeepsValid(st, lim, now);
  }

  lemma OrderWithinCap(st: Store, keys: set<Key>)
    requires ValidStore(st) && forall k :: k in st.buckets ==> k in keys
    ensures |st.order| <= |keys|
  {
    DistinctCount(st.order, keys);
  }

  lemma NewBucketOf(lim: Limits, ax: Axis, now: real)
    requires IdleMeansFull(lim, ax)
    ensures BucketOf(ax, NewBucket(ax.capacity, ax.rate, now), now)
  {
  }

  lemma LookupRefines(st: Store, m: map<Key, Bucket>, lim: Limits, ax: Axis, t: real, key: Key, now: real)
    requires Refines(st, m, lim, ax, t) && now >= t && IdleMeansFull(lim, ax)
    requires |m.Keys + {key}| <= lim.cap
    ensures var (st1, b) := Lookup(st, lim, key, NewBucket(ax.capacity, ax.rate, now), now);
            && ValidStore(st1) && key in st1.buckets && BucketOf(ax, b, now)
            && (forall k :: k in st1.buckets && k != key ==> k in m && st1.buckets[k] == m[k])
            && (forall k :: k in m && k !in st1.buckets ==> lim.idleTtl > 0.0 && m[k].lastRefill + lim.idleTtl < now)
            && Refill(b, now) == Refill(if key in m then m[key] else NewBucket(ax.capacity, ax.rate, now), now)
  {
    hide Counted, MoveToEnd, Refill, IdleMeansFull;
    NewBucketOf(lim, ax, now);
    var initial := NewBucket(ax.capacity, ax.rate, now);
    var st0 := Counted(st, lim, now);
    SweepRefines(st, m, lim, ax, t, now);
    LookupKeepsValid(st, lim, key, initial, now);
    if key !in st0.buckets {
      InsertKeepsValid(st0, key, initial);
      OrderWithinCap(Store(st0.order + [key], st0.buckets[key := initial], st0.accesses), m.Keys + {key});
      if key in m {
        IdleBucketIsFull(lim, ax, m[key], now);
      }
    }
  }

  lemma ConsumeDependsOnRefill(b: Bucket, c: Bucket, call: Call)
    requires Refill(b, call.now) == Refill(c, call.now)
    ensures Consume(b, call) == Consume(c, call)
  {
  }

  lemma WriteBackRefines(st1: Store, m: map<Key, Bucket>, lim: Limits, ax: Axis, key: Key, b: Bucket, now: real)
    requires ValidStore(st1) && key in st1.buckets && BucketOf(ax, b, now)
    requires forall k :: k in m ==> BucketOf(ax, m[k], now)
    requires forall k :: k in st1.buckets && k != key ==> k in m && st1.buckets[k] == m[k]
    requires forall k :: k in m && k !in st1.buckets ==> lim.idleTtl > 0.0 && m[k].lastRefill + lim.idleTtl < now
    ensures Refines(WriteBack(st1, key, b), m[key := b], lim, ax, now)
  {
  }

  lemma ConsumeKeepsAxis(ax: Axis, b: Bucket, c: Call)
    requires BucketOf(ax, b, c.now)
    ensures BucketOf(ax, Consume(b, c).0, c.now)
  {
    ConsumeKeepsSound(b, c);
  }

  lemma StepRefines(st: Store, m: map<Key, Bucket>, lim: Limits, ax: Axis, t: real, key: Key, c: Call)
    requires Refines(st, m, lim, ax, t) && c.now >= t && IdleMeansFull(lim, ax)
    requires |m.Keys + {key}| <= lim.cap
    ensures var (st', a) := TryConsume(st, lim, ax.capacity, ax.rate, key, c);
            var (m', a') := PlainConsume(m, ax, key, c);
            a == a' && m'.Keys == m.Keys + {key} && Refines(st', m', lim, ax, c.now)
  {
    hide Lookup, Refill, Consume, WriteBack, IdleMeansFull, Sound, ValidStore;
    var (st1, b) := Lookup(st, lim, key, NewBucket(ax.capacity, ax.rate, c.now), c.now);
    LookupRefines(st, m, lim, ax, t, key, c.now);
    ConsumeDependsOnRefill(b, if key in m then m[key] else NewBucket(ax.capacity, ax.rate, c.now), c);
    ConsumeKeepsAxis(ax, b, c);
    WriteBackRefines(st1, m, lim, ax, key, Consume(b, c).0, c.now);
  }

  ghost predicate ClockFrom(t: real, reqs: seq<Request>)
    decreases |reqs|
  {
    reqs != [] ==> reqs[0].call.now >= t && ClockFrom(reqs[0].call.now, reqs[1..])
  }

  function KeysOf(reqs: seq<Request>): set<Key> {
    set r | r in reqs :: r.key
  }

  lemma {:induction false} RunRefines(st: Store, m: map<Key, Bucket>, lim: Limits, ax: Axis, t: real, reqs: seq<Request>)
    requires Refines(st, m, lim, ax, t) && ClockFrom(t, reqs) && IdleMeansFull(lim, ax)
    requires |m.Keys + KeysOf(reqs)| <= lim.cap
    ensures Run(st, lim, ax, reqs) == PlainRun(m, ax, reqs)
    decreases |reqs|
  {
    if reqs != [] {
      var key, c := reqs[0].key, reqs[0].call;
      assert reqs[0] in reqs;
      SubsetSize(m.Keys + {key}, m.Keys + KeysOf(reqs));
      StepRefines(st, m, lim, ax, t, key, c);
      var m' := PlainConsume(m, ax, key, c).0;
      KeysOfCons(reqs);
      SubsetSize(m'.Keys + KeysOf(reqs[1..]), m.Keys + KeysOf(reqs));
      RunRefines(TryConsume(st, lim, ax.capacity, ax.rate, key, c).0, m', lim, ax, c.now, reqs[1..]);
    }
  }

  lemma KeysOfCons(reqs: seq<Request>)
    requires reqs != []
    ensures KeysOf(reqs) == {reqs[0].key} + KeysOf(reqs[1..])
  {
    assert reqs == [reqs[0]] + reqs[1..];
  }

  /** With a clock that does not go back, no more distinct keys than the cap, and an idle TTL
      long enough to refill a bucket, the bounded store answers every request exactly as a
      map that never sweeps and never evicts. */
  lemma BoundedStoreIsInvisible(lim: Limits, ax: Axis, t: real, reqs: seq<Request>)
    requires ClockFrom(t, reqs) && IdleMeansFull(lim, ax) && |KeysOf(reqs)| <= lim.cap
    ensures Run(Store([], map[], 0), lim, ax, reqs) == PlainRun(map[], ax, reqs)
  {
    var none: map<Key, Bucket> := map[];
    assert none.Keys + KeysOf(reqs) == KeysOf(reqs);
    RunRefines(Store([], map[], 0), none, lim, ax, t, reqs);
  }

  // --- LRU order is idleness order ---------------------------------------------------

  ghost predicate Sorted(order: seq<Key>, buckets: map<Key, Bucket>)
    requires forall k :: k in order ==> k in buckets
  {
    forall i, j :: 0 <= i < j < |order| ==> buckets[order[i]].lastRefill <= buckets[order[j]].lastRefill
  }

  ghost predicate SortedByRefill(st: Store) {
    ValidStore(st) && Sorted(st.order, st.buckets)
  }

  ghost predicate NoLaterThan(st: Store, t: real) {
    forall k :: k in st.buckets ==> st.buckets[k].lastRefill <= t
  }

  lemma {:induction false} FilterSorted(order: seq<Key>, buckets: map<Key, Bucket>, keep: set<Key>)
    requires forall k :: k in order ==> k in buckets
    requires Sorted(order, buckets)
    ensures Sorted(Filter(order, keep), buckets)
  {
    if order != [] {
      FilterSorted(order[1..], buckets, keep);
      var rest := Filter(order[1..], keep);
      forall j | 0 <= j < |rest| ensures buckets[order[0]].lastRefill <= buckets[rest[j]].lastRefill {
        assert rest[j] in order[1..];
        var i :| 0 <= i < |order[1..]| && order[1..][i] == rest[j];
        assert order[i + 1] == rest[j];
      }
    }
  }

  lemma SortedAgrees(order: seq<Key>, a: map<Key, Bucket>, b: map<Key, Bucket>)
    requires forall k :: k in order ==> k in a && k in b && a[k] == b[k]
    requires Sorted(order, a)
    ensures Sorted(order, b)
  {
  }

  lemma SweepKeepsSorted(st: Store, lim: Limits, now: real)
    requires SortedByRefill(st)
    ensures Sorted(Sweep(st, lim, now).order, st.buckets)
    ensures forall k :: k in Sweep(st, lim, now).buckets ==> k in st.buckets && Sweep(st, lim, now).buckets[k] == st.buckets[k]
  {
    hide Filter, Sorted;
    FilterSorted(st.order, st.buckets, Unexpired(st.buckets, now - lim.idleTtl));
  }

  lemma CountedKeepsSorted(st: Store, lim: Limits, now: real)
    requires SortedByRefill(st)
    ensures SortedByRefill(Counted(st, lim, now))
  {
    hide Sweep, Sorted, Filter, Restrict;
    CountedKeepsValid(st, lim, now);
    var st1 := st.(accesses := st.accesses + 1);
    if st1.accesses % SWEEP_EVERY == 0 {
      SweepKeepsSorted(st1, lim, now);
      SortedAgrees(Sweep(st1, lim, now).order, st.buckets, Sweep(st1, lim, now).buckets);
    }
  }

  /** While the clock does not go back, the LRU order stays sorted by last refill. */
  lemma TryConsumeKeepsSorted(st: Store, lim: Limits, ax: Axis, key: Key, c: Call)
    requires SortedByRefill(st) && NoLaterThan(st, c.now)
    ensures var st' := TryConsume(st, lim, ax.capacity, ax.rate, key, c).0;
            SortedByRefill(st') && NoLaterThan(st', c.now)
  {
    var initial := NewBucket(ax.capacity, ax.rate, c.now);
    var st0 := Counted(st, lim, c.now);
    CountedKeepsSorted(st, lim, c.now);
    var (st1, b) := Lookup(st, lim, key, initial, c.now);
    var b' := Consume(b, c).0;
    assert b'.lastRefill == c.now;
    if key in st0.buckets {
      PromoteSorted(st0, key, b');
    } else {
      var st2 := Store(st0.order + [key], st0.buckets[key := initial], st0.accesses);
      InsertKeepsValid(st0, key, initial);
      assert SortedByRefill(st2) && NoLaterThan(st2, c.now);
      EvictSorted(st2, lim.cap);
      WriteSameMark(EvictToCap(st2, lim.cap), key, b');
    }
  }

  lemma PromoteSorted(st: Store, key: Key, b: Bucket)
    requires SortedByRefill(st) && NoLaterThan(st, b.lastRefill) && key in st.buckets
    ensures var st' := WriteBack(st.(order := MoveToEnd(st.order, key)), key, b);
            SortedByRefill(st') && NoLaterThan(st', b.lastRefill)
  {
    hide Filter, Sorted;
    var keep := (set y | y in st.order) - {key};
    var others := Filter(st.order, keep);
    FilterSorted(st.order, st.buckets, keep);
    PromoteKeepsValid(st, key);
    assert Without(st.order, key) == others;
    AppendSorted(others, st.buckets, key, b);
  }

  lemma AppendSorted(order: seq<Key>, buckets: map<Key, Bucket>, key: Key, b: Bucket)
    requires forall k :: k in order ==> k in buckets && k != key && buckets[k].lastRefill <= b.lastRefill
    requires Sorted(order, buckets)
    ensures Sorted(order + [key], buckets[key := b])
  {
    var longer, updated := order + [key], buckets[key := b];
    forall i, j | 0 <= i < j < |longer| ensures updated[longer[i]].lastRefill <= updated[longer[j]].lastRefill {
      assert longer[i] == order[i] && order[i] in order;
      assert j < |order| ==> longer[j] == order[j] && order[j] in order;
    }
  }

  lemma EvictSorted(st: Store, cap: nat)
    requires SortedByRefill(st)
    ensures SortedByRefill(EvictToCap(st, cap))
  {
    EvictKeepsValid(st, cap);
    if |st.order| > cap {
      var n, st' := |st.order| - cap, EvictToCap(st, cap);
      forall i, j | 0 <= i < j < |st'.order|
        ensures st'.buckets[st'.order[i]].lastRefill <= st'.buckets[st'.order[j]].lastRefill
      {
        assert st'.order[i] == st.order[n + i] && st'.order[j] == st.order[n + j];
      }
    }
  }

  lemma WriteSameMark(st: Store, key: Key, b: Bucket)
    requires SortedByRefill(st) && NoLaterThan(st, b.lastRefill)
    requires key in st.buckets ==> st.buckets[key].lastRefill == b.lastRefill
    ensures SortedByRefill(WriteBack(st, key, b)) && NoLaterThan(WriteBack(st, key, b), b.lastRefill)
  {
  }

  lemma UnexpiredIsUpward(st: Store, cutoff: real)
    requires SortedByRefill(st)
    ensures var keep := Unexpired(st.buckets, cutoff);
            forall i, j :: 0 <= i < j < |st.order| && st.order[i] in keep ==> st.order[j] in keep
  {
    var keep := Unexpired(st.buckets, cutoff);
    forall i, j | 0 <= i < j < |st.order| && st.order[i] in keep ensures st.order[j] in keep {
      assert st.order[j] in st.order;
    }
  }

  /** In a sorted store a sweep removes a prefix of the LRU order: it keeps a suffix. */
  lemma SweepRemovesPrefix(st: Store, lim: Limits, now: real) returns (n: nat)
    requires SortedByRefill(st)
    ensures n <= |st.order| && Sweep(st, lim, now).order == st.order[n..]
  {
    hide Filter, Restrict, SortedByRefill, ValidStore;
    if lim.idleTtl <= 0.0 {
      n := 0;
      assert st.order[0..] == st.order;
    } else {
      var keep := Unexpired(st.buckets, now - lim.idleTtl);
      UnexpiredIsUpward(st, now - lim.idleTtl);
      FilterIsSuffix(st.order, keep);
      assert Sweep(st, lim, now).order == Filter(st.order, keep);
      n := |st.order| - |Filter(st.order, keep)|;
    }
  }

  /** Eviction removes longest-idle keys: nothing dropped was used after anything kept. */
  lemma EvictionRemovesLongestIdle(st: Store, cap: nat)
    requires SortedByRefill(st)
    ensures forall d, k :: d in st.buckets && d !in EvictToCap(st, cap).buckets && k in EvictToCap(st, cap).buckets ==>
              st.buckets[d].lastRefill <= st.buckets[k].lastRefill
  {
    var st' := EvictToCap(st, cap);
    forall d, k | d in st.buckets && d !in st'.buckets && k in st'.buckets
      ensures st.buckets[d].lastRefill <= st.buckets[k].lastRefill
    {
      assert d in st.order && k in st.order;
      EvictedBefore(st.order, |st.order| - cap, d, k);
    }
  }

  lemma EvictedBefore(order: seq<Key>, n: nat, d: Key, k: Key)
    requires n <= |order| && d in order && d !in order[n..] && k in order[n..]
    ensures exists i, j :: 0 <= i < j < |order| && order[i] == d && order[j] == k
  {
    var suffix := order[n..];
    var i :| 0 <= i < |order| && order[i] == d;
    var j :| 0 <= j < |suffix| && suffix[j] == k;
    assert forall m :: n <= m < |order| ==> suffix[m - n] == order[m];
    assert order[n + j] == k && i < n;
  }

  // --- One access --------------------------------------------------------------------

  /** The key outlives this access's expiry sweep: it is not the 64th, the TTL is switched off, or the
      bucket was used within the TTL. */
  ghost predicate Outlives(st: Store, lim: Limits, key: Key, now: real) {
    key in st.buckets && ((st.accesses + 1) % 64 == 0 && lim.idleTtl > 0.0 ==> now - st.buckets[key].lastRefill <= lim.idleTtl)
  }

  lemma CountedMeans(st: Store, lim: Limits, now: real)
    requires ValidStore(st)
    ensures var st1 := Counted(st, lim, now);
            && st1.accesses == st.accesses + 1
            && (forall k :: k in st1.buckets <==> Outlives(st, lim, k, now))
            && (forall k :: k in st1.buckets ==> st1.buckets[k] == st.buckets[k])
  {
  }

  /** The cap keeps the most recently used keys, as many as it allows and no fewer. */
  lemma EvictMeans(st: Store, cap: nat)
    requires ValidStore(st)
    ensures var st1 := EvictToCap(st, cap);
            && st1.order == st.order[if |st.order| <= cap then 0 else |st.order| - cap..]
            && st1.accesses == st.accesses
            && (forall k :: k in st1.buckets <==> k in st1.order)
            && (forall k :: k in st1.buckets ==> st1.buckets[k] == st.buckets[k])
  {
    EvictKeepsValid(st, cap);
    assert st.order[0..] == st.order;
  }

  /** One access hands out the bucket of a key that outlives the sweep, or a full one; the key is then
      the most recently used, a known one takes nobody's place, and a new one takes that of the least
      recently used key exactly when the survivors already fill the cap. */
  lemma LookupMeans(st: Store, lim: Limits, ax: Axis, key: Key, now: real)
    requires ValidStore(st)
    ensures var (st', b) := Lookup(st, lim, key, NewBucket(ax.capacity, ax.rate, now), now);
            var survivors := Counted(st, lim, now).order;
            && b == (if Outlives(st, lim, key, now) then st.buckets[key] else Bucket(ax.capacity, ax.rate, ax.capacity, now))
            && (forall k :: k in survivors <==> Outlives(st, lim, k, now))
            && (if Outlives(st, lim, key, now) then
                  st'.order != [] && st'.order[|st'.order| - 1] == key && (forall k :: k in st'.buckets <==> Outlives(st, lim, k, now))
                else if |survivors| < lim.cap then st'.order == survivors + [key]
                else if lim.cap == 0 then st'.order == []
                else st'.order == survivors[|survivors| + 1 - lim.cap..] + [key])
            && (forall k :: k in st'.buckets ==> st'.buckets[k] == if k == key then b else st.buckets[k])
  {
    hide EvictToCap, MoveToEnd, Counted, Outlives, ValidStore;
    var initial := NewBucket(ax.capacity, ax.rate, now);
    var st1 := Counted(st, lim, now);
    CountedMeans(st, lim, now);
    CountedKeepsValid(st, lim, now);
    OrderIsKeys(st1);
    if key in st1.buckets {
      PromoteKeepsValid(st1, key);
      MovedToEnd(st1.order, key);
    } else {
      InsertKeepsValid(st1, key, initial);
      InsertMeans(st1, key, initial, lim.cap);
    }
  }

  lemma OrderIsKeys(st: Store)
    requires ValidStore(st)
    ensures forall k :: k in st.order <==> k in st.buckets
  {
  }

  /** A new key in a store: at the recent end, the cap enforced. */
  lemma InsertMeans(st: Store, key: Key, b: Bucket, cap: nat)
    requires ValidStore(Store(st.order + [key], st.buckets[key := b], st.accesses))
    ensures var st' := EvictToCap(Store(st.order + [key], st.buckets[key := b], st.accesses), cap);
            && st'.order == (if |st.order| < cap then st.order + [key] else if cap == 0 then [] else st.order[|st.order| + 1 - cap..] + [key])
            && (forall k :: k in st'.buckets ==> (k == key || k in st.buckets) && st'.buckets[k] == st.buckets[key := b][k])
  {
    hide EvictToCap;
    var st2 := Store(st.order + [key], st.buckets[key := b], st.accesses);
    EvictMeans(st2, cap);
    if |st.order| >= cap > 0 {
      assert st2.order[|st2.order| - cap..] == st.order[|st.order| + 1 - cap..] + [key];
    } else if |st.order| < cap {
      assert st2.order[0..] == st2.order;
    }
  }

  lemma MovedToEnd(order: seq<Key>, key: Key)
    ensures MoveToEnd(order, key) != [] && MoveToEnd(order, key)[|MoveToEnd(order, key)| - 1] == key
  {
  }
}
