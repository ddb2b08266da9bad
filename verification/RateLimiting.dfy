/** The bounded per-IP bucket store and the three-axis limiter:
    megalos_server/ratelimit.py `_IpStore` and `RateLimiter`. */
module RateLimiting {
  import opened Sequences
  import opened TokenBuckets

  type Key = string

  // One expiry sweep every this many accesses.
  const SWEEP_EVERY: nat := 64

  /** The value of an `_IpStore`: the keys in LRU order, their buckets, the access count. */
  datatype Store = Store(order: seq<Key>, buckets: map<Key, Bucket>, accesses: nat)

  datatype Limits = Limits(cap: nat, idleTtl: real)

  ghost predicate ValidStore(st: Store) {
    Distinct(st.order) && forall k :: k in st.order <==> k in st.buckets
  }

  function Unexpired(buckets: map<Key, Bucket>, cutoff: real): set<Key> {
    set k | k in buckets && buckets[k].lastRefill >= cutoff
  }

  function Sweep(st: Store, lim: Limits, now: real): Store {
    if lim.idleTtl <= 0.0 then st
    else
      var keep := Unexpired(st.buckets, now - lim.idleTtl);
      st.(order := Filter(st.order, keep), buckets := Restrict(st.buckets, keep))
  }

  /** Dropping least recently used keys until the cap holds. */
  function EvictToCap(st: Store, cap: nat): Store {
    if |st.order| <= cap then st
    else st.(order := Newest(st.order, cap), buckets := Restrict(st.buckets, Members(Newest(st.order, cap))))
  }

  function Counted(st: Store, lim: Limits, now: real): Store {
    var st1 := st.(accesses := st.accesses + 1);
    if st1.accesses % SWEEP_EVERY == 0 then Sweep(st1, lim, now) else st1
  }

  /** `get_or_create`: the store afterwards and the bucket handed out. */
  function Lookup(st: Store, lim: Limits, key: Key, initial: Bucket, now: real): (Store, Bucket) {
    var st1 := Counted(st, lim, now);
    if key in st1.buckets then (st1.(order := MoveToEnd(st1.order, key)), st1.buckets[key])
    else (EvictToCap(Store(st1.order + [key], st1.buckets[key := initial], st1.accesses), lim.cap), initial)
  }

  /** The bucket handed out is shared with the store, unless eviction dropped it again. */
  function WriteBack(st: Store, key: Key, b: Bucket): Store {
    if key in st.buckets then st.(buckets := st.buckets[key := b]) else st
  }

  /** `try_consume` on an IP axis with burst `capacity` and refill `rate`. */
  function TryConsume(st: Store, lim: Limits, capacity: real, rate: real, key: Key, c: Call): (Store, Answer) {
    var (st1, b) := Lookup(st, lim, key, NewBucket(capacity, rate, c.now), c.now);
    var (b', a) := Consume(b, c);
    (WriteBack(st1, key, b'), a)
  }

  lemma LookupKeepsValid(st: Store, lim: Limits, key: Key, initial: Bucket, now: real)
    requires ValidStore(st)
    ensures ValidStore(Lookup(st, lim, key, initial, now).0)
  {
    var st1 := Counted(st, lim, now);
    CountedKeepsValid(st, lim, now);
    if key in st1.buckets {
      PromoteKeepsValid(st1, key);
    } else {
      InsertKeepsValid(st1, key, initial);
      EvictKeepsValid(Store(st1.order + [key], st1.buckets[key := initial], st1.accesses), lim.cap);
    }
  }

  lemma PromoteKeepsValid(st: Store, key: Key)
    requires ValidStore(st) && key in st.buckets
    ensures ValidStore(st.(order := MoveToEnd(st.order, key)))
  {
    FilterDistinct(st.order, (set y | y in st.order) - {key});
  }

  lemma InsertKeepsValid(st: Store, key: Key, b: Bucket)
    requires ValidStore(st) && key !in st.buckets
    ensures ValidStore(Store(st.order + [key], st.buckets[key := b], st.accesses))
  {
  }

  lemma CountedKeepsValid(st: Store, lim: Limits, now: real)
    requires ValidStore(st)
    ensures ValidStore(Counted(st, lim, now))
  {
    FilterDistinct(st.order, Unexpired(st.buckets, now - lim.idleTtl));
  }

  lemma EvictKeepsValid(st: Store, cap: nat)
    requires ValidStore(st)
    ensures ValidStore(EvictToCap(st, cap)) && |EvictToCap(st, cap).order| <= cap
  {
    NewestKeys(st.order, st.buckets, cap);
  }

  /** Deciding one more key of the order during a sweep. */
  lemma SweepOne(st: Store, keep: set<Key>, i: nat)
    requires ValidStore(st) && i < |st.order|
    ensures var k := st.order[i]; var m := Restrict(st.buckets, keep + Members(st.order[i..]));
            && k in m && m[k] == st.buckets[k]
            && Restrict(st.buckets, keep + Members(st.order[i + 1..])) == (if k in keep then m else m - {k})
  {
    var k := st.order[i];
    assert st.order[i..] == [k] + st.order[i + 1..];
    assert Members(st.order[i..]) == Members(st.order[i + 1..]) + {k};
    assert k in st.order && k !in st.order[i + 1..];
  }

  lemma RestrictAll(st: Store, keep: set<Key>)
    requires ValidStore(st)
    ensures Restrict(st.buckets, keep + Members(st.order[0..])) == st.buckets
    ensures Restrict(st.buckets, Members(st.order[0..])) == st.buckets
  {
    assert st.order[0..] == st.order;
  }

  // --- The class ------------------------------------------------------------------

  class IpStore {
    const cap: nat
    const idleTtl: real
    var order: seq<Key>
    var buckets: map<Key, Bucket>
    var accessCount: nat

    constructor (cap: nat, idleTtl: real)
      ensures this.cap == cap && this.idleTtl == idleTtl
      ensures Contents() == Store([], map[], 0)
    {
      this.cap := cap;
      this.idleTtl := idleTtl;
      order, buckets, accessCount := [], map[], 0;
    }

    function Contents(): Store
      reads this
    {
      Store(order, buckets, accessCount)
    }

    method EvictIfOverCap()
      requires ValidStore(Contents())
      modifies this`order, this`buckets
      ensures Contents() == EvictToCap(old(Contents()), cap)
    {
      ghost var before := Contents();
      ghost var n := 0;
      RestrictAll(before, {});
      while |order| > cap
        invariant n <= |before.order| && order == before.order[n..]
        invariant n > 0 ==> |order| >= cap
        invariant buckets == Restrict(before.buckets, Members(order))
      {
        var oldest := order[0];
        assert before.order[n + 1..] == order[1..];
        OldestOut(before.order, before.buckets, n);
        buckets := buckets - {oldest};
        order := order[1..];
        n := n + 1;
      }
    }

    method SweepExpired(now: real)
      requires ValidStore(Contents())
      modifies this`order, this`buckets
      ensures Contents() == Sweep(old(Contents()), Limits(cap, idleTtl), now)
    {
      if idleTtl <= 0.0 {
        return;
      }
      ghost var before := Contents();
      var cutoff := now - idleTtl;
      ghost var keep := Unexpired(before.buckets, cutoff);
      var keys, live, kept, i := order, buckets, [], 0;
      RestrictAll(before, keep);
      while i < |keys|
        invariant 0 <= i <= |keys|
        invariant kept == Filter(keys[..i], keep)
        invariant live == Restrict(before.buckets, keep + Members(keys[i..]))
      {
        FilterNext(keys, i, keep);
        SweepOne(before, keep, i);
        if live[keys[i]].lastRefill < cutoff {
          live := live - {keys[i]};
        } else {
          kept := kept + [keys[i]];
        }
        i := i + 1;
      }
      assert keys[..i] == keys && keep + Members(keys[i..]) == keep;
      order, buckets := kept, live;
    }

    /** A bucket for an unknown key: inserted at the recent end, then the cap is enforced. */
    method Insert(key: Key, bucket: Bucket)
      requires ValidStore(Contents()) && key !in buckets
      modifies this`order, this`buckets
      ensures Contents() == EvictToCap(Store(old(order) + [key], old(buckets)[key := bucket], accessCount), cap)
    {
      InsertKeepsValid(Contents(), key, bucket);
      buckets := buckets[key := bucket];
      order := order + [key];
      EvictIfOverCap();
    }

    /** get_or_create */
    method GetOrCreate(key: Key, capacity: real, rate: real, now: real) returns (bucket: Bucket)
      requires ValidStore(Contents())
      modifies this`order, this`buckets, this`accessCount
      ensures ValidStore(Contents())
      ensures (Contents(), bucket) == Lookup(old(Contents()), Limits(cap, idleTtl), key, NewBucket(capacity, rate, now), now)
    {
      hide Sweep, EvictToCap;
      ghost var lim := Limits(cap, idleTtl);
      LookupKeepsValid(Contents(), lim, key, NewBucket(capacity, rate, now), now);
      CountedKeepsValid(Contents(), lim, now);
      accessCount := accessCount + 1;
      if accessCount % SWEEP_EVERY == 0 {
        SweepExpired(now);
      }
      assert Contents() == Counted(old(Contents()), lim, now);
      if key !in buckets {
        bucket := NewBucket(capacity, rate, now);
        Insert(key, bucket);
      } else {
        bucket := buckets[key];
        order := MoveToEnd(order, key);
      }
    }
  }

  datatype AxisName = Session | Ip | IpSessionCreate

  datatype Config = Config(
    sessionRate: real, sessionBurst: real, ipRate: real, ipBurst: real, ipCreateRate: real, ipCreateBurst: real)

  /** The three-axis limiter; the clock reading is a parameter of each call. */
  class RateLimiter {
    const config: Config
    var sessions: map<Key, Bucket>
    const ipStore: IpStore
    const ipCreateStore: IpStore

    constructor (config: Config, ipStoreCap: nat, ipIdleTtl: real)
      ensures this.config == config && sessions == map[]
      ensures fresh(ipStore) && fresh(ipCreateStore) && ipStore != ipCreateStore
      ensures ipStore.Contents() == ipCreateStore.Contents() == Store([], map[], 0)
      ensures ipStore.cap == ipCreateStore.cap == ipStoreCap && ipStore.idleTtl == ipCreateStore.idleTtl == ipIdleTtl
    {
      this.config := config;
      sessions := map[];
      ipStore := new IpStore(ipStoreCap, ipIdleTtl);
      ipCreateStore := new IpStore(ipStoreCap, ipIdleTtl);
    }

    ghost predicate Valid()
      reads this, ipStore, ipCreateStore
    {
      && ipStore != ipCreateStore
      && ValidStore(ipStore.Contents()) && ValidStore(ipCreateStore.Contents())
    }

    method TryConsumeSession(key: Key, c: Call) returns (answer: Answer)
      modifies this`sessions
      ensures var before := if key in old(sessions) then old(sessions)[key]
                            else NewBucket(config.sessionBurst, config.sessionRate, c.now);
              sessions == old(sessions)[key := Consume(before, c).0] && answer == Consume(before, c).1
    {
      if key !in sessions {
        sessions := sessions[key := NewBucket(config.sessionBurst, config.sessionRate, c.now)];
      }
      var (bucket, a) := Consume(sessions[key], c);
      sessions := sessions[key := bucket];
      answer := a;
    }

    /** Consume through a bounded store: the store's bucket object is updated in place. */
    static method TryConsumeStore(store: IpStore, capacity: real, rate: real, key: Key, c: Call) returns (answer: Answer)
      requires ValidStore(store.Contents())
      modifies store
      ensures ValidStore(store.Contents())
      ensures (store.Contents(), answer)
              == TryConsume(old(store.Contents()), Limits(store.cap, store.idleTtl), capacity, rate, key, c)
    {
      var bucket := store.GetOrCreate(key, capacity, rate, c.now);
      var (after, a) := Consume(bucket, c);
      if key in store.buckets {
        store.buckets := store.buckets[key := after];
      }
      answer := a;
    }

    /** try_consume: one axis changes, by its specification; the other two do not. */
    method TryConsumeAxis(axis: AxisName, key: Key, c: Call) returns (answer: Answer)
      requires Valid()
      modifies this`sessions, ipStore, ipCreateStore
      ensures Valid()
      ensures axis != Session ==> sessions == old(sessions)
      ensures axis != Ip ==> ipStore.Contents() == old(ipStore.Contents())
      ensures axis != IpSessionCreate ==> ipCreateStore.Contents() == old(ipCreateStore.Contents())
      ensures axis == Session ==>
                var before := if key in old(sessions) then old(sessions)[key]
                              else NewBucket(config.sessionBurst, config.sessionRate, c.now);
                sessions == old(sessions)[key := Consume(before, c).0] && answer == Consume(before, c).1
      ensures axis == Ip ==>
                (ipStore.Contents(), answer)
                == TryConsume(old(ipStore.Contents()), Limits(ipStore.cap, ipStore.idleTtl), config.ipBurst, config.ipRate, key, c)
      ensures axis == IpSessionCreate ==>
                (ipCreateStore.Contents(), answer)
                == TryConsume(old(ipCreateStore.Contents()), Limits(ipCreateStore.cap, ipCreateStore.idleTtl),
                              config.ipCreateBurst, config.ipCreateRate, key, c)
    {
      match axis
      case Session => answer := TryConsumeSession(key, c);
      case Ip => answer := TryConsumeStore(ipStore, config.ipBurst, config.ipRate, key, c);
      case IpSessionCreate => answer := TryConsumeStore(ipCreateStore, config.ipCreateBurst, config.ipCreateRate, key, c);
    }

    method DropSession(key: Key)
      modifies this`sessions
      ensures sessions == old(sessions) - {key}
    {
      sessions := sessions - {key};
    }
  }
}
