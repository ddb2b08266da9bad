/** One token bucket: megalos_server/ratelimit.py `TokenBucket`, `_refill` and the
    synchronous core of `try_consume`. Floats are reals. */
module TokenBuckets {
  import opened Options

  datatype Bucket = Bucket(capacity: real, rate: real, tokens: real, lastRefill: real)

  /** Denied(None) is the infinite retry-after of a bucket that cannot refill. */
  datatype Answer = Allowed | Denied(retryAfterMs: Option<real>)

  datatype Call = Call(now: real, cost: nat)

  function NewBucket(capacity: real, rate: real, now: real): Bucket {
    Bucket(capacity, rate, capacity, now)
  }

  function Min(a: real, b: real): real { if a <= b then a else b }

  function Max(a: real, b: real): real { if a >= b then a else b }

  function Refill(b: Bucket, now: real): Bucket {
    var elapsed := if now - b.lastRefill < 0.0 then 0.0 else now - b.lastRefill;
    var added := elapsed * b.rate;
    var tokens := if added > 0.0 then Min(b.capacity, b.tokens + added) else b.tokens;
    b.(tokens := tokens, lastRefill := if now > b.lastRefill then now else b.lastRefill)
  }

  function Consume(b: Bucket, c: Call): (Bucket, Answer) {
    var r := Refill(b, c.now);
    var cost := c.cost as real;
    if r.tokens >= cost then (r.(tokens := r.tokens - cost), Allowed)
    else if r.rate <= 0.0 then (r, Denied(None))
    else (r, Denied(Some((cost - r.tokens) / r.rate * 1000.0)))
  }

  ghost predicate Sound(b: Bucket) {
    0.0 <= b.rate && 0.0 <= b.tokens <= b.capacity
  }

  /** Tokens stay within 0..capacity and the refill mark is the running maximum of the
      clock, whatever the clock does. */
  lemma ConsumeKeepsSound(b: Bucket, c: Call)
    requires Sound(b)
    ensures var (b', _) := Consume(b, c);
            Sound(b') && b'.capacity == b.capacity && b'.rate == b.rate
            && b'.lastRefill == Max(b.lastRefill, c.now)
  {
    var elapsed := if c.now - b.lastRefill < 0.0 then 0.0 else c.now - b.lastRefill;
    assert elapsed * b.rate >= 0.0;
  }

  // --- Admission over a sequence of calls --------------------------------------

  function After(b: Bucket, calls: seq<Call>): Bucket
    decreases |calls|
  {
    if calls == [] then b else After(Consume(b, calls[0]).0, calls[1..])
  }

  /** Cost admitted over a sequence of calls. */
  function Admitted(b: Bucket, calls: seq<Call>): nat
    decreases |calls|
  {
    if calls == [] then 0
    else
      var (b', a) := Consume(b, calls[0]);
      (if a.Allowed? then calls[0].cost else 0) + Admitted(b', calls[1..])
  }

  /** Running maximum of the clock readings, from a start value. */
  function RunningMax(start: real, calls: seq<Call>): real
    decreases |calls|
  {
    if calls == [] then start else RunningMax(Max(start, calls[0].now), calls[1..])
  }

  lemma {:induction false} AfterIsSound(b: Bucket, calls: seq<Call>)
    requires Sound(b)
    ensures var e := After(b, calls);
            Sound(e) && e.capacity == b.capacity && e.rate == b.rate
            && e.lastRefill == RunningMax(b.lastRefill, calls)
    decreases |calls|
  {
    if calls != [] {
      ConsumeKeepsSound(b, calls[0]);
      AfterIsSound(Consume(b, calls[0]).0, calls[1..]);
    }
  }

  lemma MulMonotone(rate: real, x: real, y: real)
    requires rate >= 0.0 && x <= y
    ensures rate * x <= rate * y
  {
    assert rate * (y - x) >= 0.0;
  }

  /** Tokens the clock's growth from x to y is worth; kept as one term for the solver. */
  function Worth(rate: real, x: real, y: real): real {
    rate * (y - x)
  }

  lemma WorthAdds(rate: real, x: real, y: real, z: real)
    ensures Worth(rate, x, y) + Worth(rate, y, z) == Worth(rate, x, z)
  {
  }

  /** What one call admits is paid for by the tokens at hand and the clock's growth. */
  lemma ConsumePays(b: Bucket, c: Call)
    requires Sound(b)
    ensures var (b', a) := Consume(b, c);
            (if a.Allowed? then c.cost as real else 0.0) + b'.tokens
            <= b.tokens + Worth(b.rate, b.lastRefill, b'.lastRefill)
  {
    var elapsed := if c.now - b.lastRefill < 0.0 then 0.0 else c.now - b.lastRefill;
    var r := Refill(b, c.now);
    assert r.lastRefill - b.lastRefill == elapsed;
    assert b.rate * elapsed == elapsed * b.rate >= 0.0;
  }

  lemma AdmittedCons(b: Bucket, calls: seq<Call>)
    requires calls != []
    ensures var (b', a) := Consume(b, calls[0]);
            && Admitted(b, calls) as real == (if a.Allowed? then calls[0].cost as real else 0.0) + Admitted(b', calls[1..]) as real
            && After(b, calls) == After(b', calls[1..])
  {
  }

  lemma {:induction false} SpendingIsPaid(b: Bucket, calls: seq<Call>)
    requires Sound(b)
    ensures Admitted(b, calls) as real + After(b, calls).tokens
            <= b.tokens + Worth(b.rate, b.lastRefill, RunningMax(b.lastRefill, calls))
    decreases |calls|
  {
    if calls != [] {
      var (b', a) := Consume(b, calls[0]);
      ConsumeKeepsSound(b, calls[0]);
      ConsumePays(b, calls[0]);
      SpendingIsPaid(b', calls[1..]);
      WorthAdds(b.rate, b.lastRefill, b'.lastRefill, RunningMax(b.lastRefill, calls));
      AdmittedCons(b, calls);
    }
  }

  lemma {:induction false} RunningMaxConcat(start: real, xs: seq<Call>, ys: seq<Call>)
    ensures RunningMax(start, xs + ys) == RunningMax(RunningMax(start, xs), ys)
    decreases |xs|
  {
    if xs == [] {
      assert xs + ys == ys;
    } else {
      assert (xs + ys)[1..] == xs[1..] + ys;
      RunningMaxConcat(Max(start, xs[0].now), xs[1..], ys);
    }
  }

  /** For any clock, backward jumps included: the calls i..j (both included) are admitted at
      most the capacity plus rate times the growth of the running maximum between them. */
  lemma AdmissionBound(b: Bucket, calls: seq<Call>, i: nat, j: nat)
    requires Sound(b) && i <= j < |calls|
    ensures Admitted(After(b, calls[..i]), calls[i..j + 1]) as real
            <= b.capacity + Worth(b.rate, RunningMax(b.lastRefill, calls[..i + 1]), RunningMax(b.lastRefill, calls[..j + 1]))
  {
    var before, c, later := calls[..i], calls[i], calls[i + 1..j + 1];
    var at := After(b, before);
    AfterIsSound(b, before);
    ConsumeKeepsSound(at, c);
    var (b', a) := Consume(at, c);
    assert calls[i..j + 1][0] == c && calls[i..j + 1][1..] == later;
    AdmittedCons(at, calls[i..j + 1]);
    SpendingIsPaid(b', later);
    AfterIsSound(b', later);
    RefillCapped(at, c);
    assert calls[..i + 1] == before + [c];
    assert calls[..j + 1] == calls[..i + 1] + later;
    RunningMaxConcat(b.lastRefill, before, [c]);
    RunningMaxConcat(b.lastRefill, calls[..i + 1], later);
    assert RunningMax(at.lastRefill, [c]) == b'.lastRefill by {
      assert [c][1..] == [];
      assert RunningMax(Max(at.lastRefill, c.now), []) == Max(at.lastRefill, c.now);
    }
  }

  lemma RefillCapped(b: Bucket, c: Call)
    requires Sound(b)
    ensures var (b', a) := Consume(b, c);
            (if a.Allowed? then c.cost as real else 0.0) + b'.tokens <= b.capacity
  {
    var elapsed := if c.now - b.lastRefill < 0.0 then 0.0 else c.now - b.lastRefill;
    assert elapsed * b.rate >= 0.0;
  }

  // --- Exactness of retry_after ------------------------------------------------

  lemma EnoughIff(tokens: real, rate: real, cost: real, elapsed: real)
    requires rate > 0.0 && tokens < cost
    ensures tokens + elapsed * rate >= cost <==> elapsed >= (cost - tokens) / rate
    ensures (cost - tokens) / rate > 0.0
  {
    var wait := (cost - tokens) / rate;
    assert wait * rate == cost - tokens;
    if elapsed >= wait {
      MulMonotone(rate, wait, elapsed);
    } else {
      assert (wait - elapsed) * rate > 0.0;
    }
  }

  /** The refilled token count at time t covers a cost exactly when the cost fits the bucket
      and the elapsed time is worth the deficit. */
  lemma RefillCovers(b: Bucket, cost: real, t: real)
    requires Sound(b) && b.rate > 0.0 && b.tokens < cost
    ensures Refill(b, t).tokens >= cost <==> cost <= b.capacity && t >= b.lastRefill + (cost - b.tokens) / b.rate
  {
    var elapsed := if t - b.lastRefill < 0.0 then 0.0 else t - b.lastRefill;
    EnoughIff(b.tokens, b.rate, cost, elapsed);
    assert elapsed * b.rate >= 0.0;
  }

  /** After a denial the same request, made alone, is admitted exactly from the moment the
      refill mark plus deficit / rate on; at a cost above capacity, never. */
  lemma AdmittedAgainFrom(b: Bucket, c: Call, t: real)
    requires Sound(b) && b.rate > 0.0
    requires Consume(b, c).1.Denied?
    ensures var b' := Consume(b, c).0;
            Consume(b', c.(now := t)).1.Allowed? <==>
            c.cost as real <= b.capacity && t >= b'.lastRefill + (c.cost as real - b'.tokens) / b.rate
  {
    ConsumeKeepsSound(b, c);
    RefillCovers(Consume(b, c).0, c.cost as real, t);
  }

  ghost predicate RetryAfterExact(b: Bucket, c: Call) {
    var (b', a) := Consume(b, c);
    && a.Denied? && a.retryAfterMs.Some?
    && forall t :: Consume(b', c.(now := t)).1.Allowed? <==> t >= c.now + a.retryAfterMs.value / 1000.0
  }

  /** A denial's retry_after_ms is exact if and only if the cost fits the bucket and the
      clock was not behind the bucket's refill mark. */
  lemma RetryAfterExactIff(b: Bucket, c: Call)
    requires Sound(b) && b.rate > 0.0 && Consume(b, c).1.Denied?
    ensures RetryAfterExact(b, c) <==> c.cost as real <= b.capacity && c.now >= b.lastRefill
  {
    var (b', a) := Consume(b, c);
    ConsumeKeepsSound(b, c);
    var wait := (c.cost as real - b'.tokens) / b.rate;
    assert a.retryAfterMs.value / 1000.0 == wait;
    EnoughIff(b'.tokens, b.rate, c.cost as real, 0.0);
    if c.cost as real <= b.capacity && c.now >= b.lastRefill {
      forall t
        ensures Consume(b', c.(now := t)).1.Allowed? <==> t >= c.now + a.retryAfterMs.value / 1000.0
      {
        AdmittedAgainFrom(b, c, t);
      }
    } else {
      var t := c.now + wait;
      AdmittedAgainFrom(b, c, t);
      assert !Consume(b', c.(now := t)).1.Allowed?;
      assert t >= c.now + a.retryAfterMs.value / 1000.0;
    }
  }

  /** A bucket emptied at time 10 and asked again by a clock five seconds behind it: the denial
      promises admission after one second, and at that time the request is denied again. */
  lemma RetryAfterClockBehind()
    ensures var b := Bucket(1.0, 1.0, 0.0, 10.0); var c := Call(5.0, 1); var (b', a) := Consume(b, c);
            && b == Consume(NewBucket(1.0, 1.0, 10.0), Call(10.0, 1)).0 && Sound(b) && a == Denied(Some(1000.0))
            && Consume(b', c.(now := 6.0)).1.Denied? && !RetryAfterExact(b, c)
  {
    RetryAfterExactIff(Bucket(1.0, 1.0, 0.0, 10.0), Call(5.0, 1));
  }

  /** A cost above the capacity: the denial promises a time, and no time admits it. */
  lemma RetryAfterTooDear(t: real)
    ensures var b := NewBucket(1.0, 1.0, 0.0); var c := Call(0.0, 2); var (b', a) := Consume(b, c);
            Sound(b) && a == Denied(Some(1000.0)) && Consume(b', c.(now := t)).1.Denied?
  {
    AdmittedAgainFrom(Bucket(1.0, 1.0, 1.0, 0.0), Call(0.0, 2), t);
  }
}
