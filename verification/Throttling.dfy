/** megalos_panel/throttle.py: rolling one-second call window and sixty-second token window. */
module Throttling {
  import opened Options

  datatype Spend = Spend(time: real, tokens: int)

  ghost predicate Ascending(xs: seq<real>) {
    forall i, j :: 0 <= i <= j < |xs| ==> xs[i] <= xs[j]
  }

  ghost predicate AscendingSpends(xs: seq<Spend>) {
    forall i, j :: 0 <= i <= j < |xs| ==> xs[i].time <= xs[j].time
  }

  function Sum(xs: seq<Spend>): int {
    if xs == [] then 0 else Sum(xs[..|xs| - 1]) + xs[|xs| - 1].tokens
  }

  /** Tokens of the estimates that fit the ceiling on their own. */
  function FittingSum(xs: seq<Spend>, maxTpm: int): int {
    if xs == [] then 0
    else FittingSum(xs[..|xs| - 1], maxTpm) + (if xs[|xs| - 1].tokens <= maxTpm then xs[|xs| - 1].tokens else 0)
  }

  /** At most ceil(maxRps) admissions in any closed second: between the first and the last
      there are fewer than maxRps steps. */
  ghost predicate CallsFit(history: seq<real>, maxRps: real) {
    forall i, j :: 0 <= i <= j < |history| && history[j] - history[i] <= 1.0 ==> (j - i) as real < maxRps
  }

  /** A negative ceiling lets no tokens through but those of oversize calls, as a ceiling of 0 does. */
  function Ceiling(maxTpm: int): nat {
    if maxTpm < 0 then 0 else maxTpm
  }

  ghost predicate TokensFit(history: seq<Spend>, maxTpm: int) {
    forall i, j :: 0 <= i <= j < |history| && history[j].time - history[i].time <= 60.0 ==>
      FittingSum(history[i..j + 1], maxTpm) <= Ceiling(maxTpm)
  }

  lemma FitsFrom(history: seq<real>, maxRps: real, i: nat, j: nat)
    requires CallsFit(history, maxRps) && i <= j < |history| && history[j] - history[i] <= 1.0
    ensures (j - i) as real < maxRps
  {
  }

  /** A ceiling of zero or less is kept by the empty history alone. */
  lemma NoneFits(history: seq<real>, maxRps: real)
    requires history != [] && maxRps <= 0.0
    ensures !CallsFit(history, maxRps)
  {
    if CallsFit(history, maxRps) {
      FitsFrom(history, maxRps, 0, 0);
    }
  }

  ghost function Within(history: seq<real>, from: real): set<nat> {
    set k: nat | k < |history| && from <= history[k] <= from + 1.0
  }

  lemma {:induction false} RangeCount(s: set<nat>, lo: nat, n: nat)
    requires forall k :: k in s ==> lo <= k < lo + n
    ensures |s| <= n
  {
    if n == 0 {
      assert s == {};
    } else {
      RangeCount(s - {lo + n - 1}, lo, n - 1);
    }
  }

  /** Reading CallsFit as a count: a closed interval of one second holds fewer than maxRps + 1,
      that is at most ceil(maxRps), admissions. */
  lemma ClosedSecondCount(history: seq<real>, maxRps: real, from: real)
    requires Ascending(history) && CallsFit(history, maxRps) && maxRps > 0.0
    ensures |Within(history, from)| as real < maxRps + 1.0
  {
    var w := Within(history, from);
    if w != {} {
      var i := 0;
      while i !in w
        invariant i < |history| && forall k :: k in w ==> i <= k
        decreases |history| - i
      {
        var k :| k in w;
        i := i + 1;
      }
      var j := |history| - 1;
      while j !in w
        invariant i <= j < |history| && forall k :: k in w ==> k <= j
        decreases j
      {
        j := j - 1;
      }
      RangeCount(w, i, j - i + 1);
    }
  }

  lemma {:induction false} SumCoversSuffix(xs: seq<Spend>, i: nat, maxTpm: int)
    requires i <= |xs| && maxTpm >= 0
    requires forall k :: 0 <= k < |xs| ==> xs[k].tokens > 0
    ensures FittingSum(xs[i..], maxTpm) <= Sum(xs)
    decreases |xs|
  {
    if xs == [] {
    } else if i == |xs| {
      SumCoversSuffix(xs[..|xs| - 1], |xs| - 1, maxTpm);
    } else {
      SumCoversSuffix(xs[..|xs| - 1], i, maxTpm);
      assert xs[i..][..|xs[i..]| - 1] == xs[..|xs| - 1][i..];
    }
  }

  lemma FittingSumSnoc(xs: seq<Spend>, s: Spend, maxTpm: int)
    ensures FittingSum(xs + [s], maxTpm) == FittingSum(xs, maxTpm) + (if s.tokens <= maxTpm then s.tokens else 0)
  {
    assert (xs + [s])[..|xs|] == xs;
  }

  /** Admitting one more call keeps the call windows, given what the deque showed. */
  lemma CallAdmitted(history: seq<real>, dropped: nat, now: real, maxRps: real)
    requires Ascending(history) && dropped <= |history| && CallsFit(history, maxRps) && maxRps > 0.0
    requires forall k :: 0 <= k < dropped ==> now - history[k] > 1.0
    requires (|history| - dropped) as real < maxRps
    ensures CallsFit(history + [now], maxRps)
  {
    var h := history + [now];
    forall i, j | 0 <= i <= j < |h| && h[j] - h[i] <= 1.0 ensures (j - i) as real < maxRps {
      if j < |history| {
        assert history[j] - history[i] <= 1.0;
      } else if i < |history| {
        assert i >= dropped;
      }
    }
  }

  /** The window ending in the new spend, when that spend fits the ceiling. */
  lemma NewWindowFits(history: seq<Spend>, dropped: nat, s: Spend, maxTpm: int, i: nat)
    requires dropped <= i <= |history| && 0 < s.tokens <= maxTpm
    requires forall k :: 0 <= k < |history| ==> history[k].tokens > 0
    requires Sum(history[dropped..]) + s.tokens <= maxTpm
    ensures FittingSum(history[i..] + [s], maxTpm) <= maxTpm
  {
    assert history[i..] == history[dropped..][i - dropped..];
    SumCoversSuffix(history[dropped..], i - dropped, maxTpm);
    FittingSumSnoc(history[i..], s, maxTpm);
  }

  /** The window ending in an oversize spend adds nothing to the fitting sum. */
  lemma OversizeWindowFits(history: seq<Spend>, s: Spend, maxTpm: int, i: nat)
    requires i <= |history| && s.tokens > maxTpm && TokensFit(history, maxTpm)
    requires AscendingSpends(history + [s]) && s.time - (history + [s])[i].time <= 60.0
    ensures FittingSum(history[i..] + [s], maxTpm) <= Ceiling(maxTpm)
  {
    FittingSumSnoc(history[i..], s, maxTpm);
    if i < |history| {
      assert history[i..] == history[i..|history| - 1 + 1];
      assert (history + [s])[|history| - 1].time <= (history + [s])[|history|].time;
    }
  }

  lemma WindowOf(history: seq<Spend>, s: Spend, i: nat, j: nat)
    requires i <= j <= |history|
    ensures (history + [s])[i..j + 1] == if j < |history| then history[i..j + 1] else history[i..] + [s]
  {
  }

  /** A call whose estimate the ceiling lets through keeps the token windows. */
  lemma SpendAdmitted(history: seq<Spend>, dropped: nat, s: Spend, maxTpm: int)
    requires AscendingSpends(history + [s]) && dropped <= |history| && TokensFit(history, maxTpm) && s.tokens > 0
    requires forall k :: 0 <= k < |history| ==> history[k].tokens > 0
    requires forall k :: 0 <= k < dropped ==> s.time - history[k].time > 60.0
    requires s.tokens > maxTpm || Sum(history[dropped..]) + s.tokens <= maxTpm
    ensures TokensFit(history + [s], maxTpm)
  {
    hide FittingSum, Sum, AscendingSpends;
    var h := history + [s];
    forall i, j | 0 <= i <= j < |h| && h[j].time - h[i].time <= 60.0
      ensures FittingSum(h[i..j + 1], maxTpm) <= Ceiling(maxTpm)
    {
      WindowOf(history, s, i, j);
      if j == |history| {
        if s.tokens > maxTpm {
          OversizeWindowFits(history, s, maxTpm, i);
        } else {
          assert i < |history| ==> h[i] == history[i];
          NewWindowFits(history, dropped, s, maxTpm, i);
        }
      }
    }
  }

  /** The deque of calls is what is left of the history; all that left is over a second old. */
  ghost predicate CallDeque(calls: seq<real>, history: seq<real>, dropped: nat, now: real) {
    && dropped <= |history| && calls == history[dropped..]
    && forall k :: 0 <= k < dropped ==> now - history[k] > 1.0
  }

  ghost predicate SpendDeque(tokens: seq<Spend>, history: seq<Spend>, dropped: nat, now: real) {
    && dropped <= |history| && tokens == history[dropped..]
    && forall k :: 0 <= k < dropped ==> now - history[k].time > 60.0
  }

  /** Histories record a clock that never went back and only positive estimates. */
  ghost predicate Recorded(history: seq<real>, spends: seq<Spend>, latest: real) {
    && Ascending(history) && (forall k :: 0 <= k < |history| ==> history[k] <= latest)
    && AscendingSpends(spends)
    && (forall k :: 0 <= k < |spends| ==> spends[k].tokens > 0 && spends[k].time <= latest)
  }

  lemma CallLeaves(calls: seq<real>, history: seq<real>, dropped: nat, now: real)
    requires CallDeque(calls, history, dropped, now) && calls != [] && now - calls[0] > 1.0
    ensures CallDeque(calls[1..], history, dropped + 1, now)
  {
  }

  /** What the deques show is enough to keep the windows. */
  lemma CallWindowsKept(calls: seq<real>, history: seq<real>, dropped: nat, now: real, maxRps: real)
    requires CallDeque(calls, history, dropped, now) && Ascending(history) && CallsFit(history, maxRps) && |calls| as real < maxRps
    ensures CallsFit(history + [now], maxRps)
  {
    hide CallsFit;
    CallAdmitted(history, dropped, now, maxRps);
  }

  lemma TokenWindowsKept(tokens: seq<Spend>, history: seq<Spend>, dropped: nat, s: Spend, maxTpm: int)
    requires SpendDeque(tokens, history, dropped, s.time) && AscendingSpends(history + [s]) && TokensFit(history, maxTpm)
    requires s.tokens > 0 && forall k :: 0 <= k < |history| ==> history[k].tokens > 0
    requires s.tokens > maxTpm || Sum(tokens) + s.tokens <= maxTpm
    ensures TokensFit(history + [s], maxTpm)
  {
    hide TokensFit, Sum;
    SpendAdmitted(history, dropped, s, maxTpm);
  }

  lemma CallEnters(calls: seq<real>, history: seq<real>, dropped: nat, now: real)
    requires CallDeque(calls, history, dropped, now)
    ensures CallDeque(calls + [now], history + [now], dropped, now)
  {
    assert (history + [now])[dropped..] == history[dropped..] + [now];
  }

  lemma SpendEnters(tokens: seq<Spend>, history: seq<Spend>, dropped: nat, s: Spend, now: real)
    requires SpendDeque(tokens, history, dropped, now)
    ensures SpendDeque(tokens + [s], history + [s], dropped, now)
  {
    assert (history + [s])[dropped..] == history[dropped..] + [s];
  }

  lemma SpendLeaves(tokens: seq<Spend>, history: seq<Spend>, dropped: nat, now: real)
    requires SpendDeque(tokens, history, dropped, now) && tokens != [] && now - tokens[0].time > 60.0
    ensures SpendDeque(tokens[1..], history, dropped + 1, now)
  {
  }

  /** What one critical section of acquire comes to: the call is admitted, sleeps, or fails on
      an empty window that blocks it. */
  datatype Attempt = Admitted | Blocked(wait: real) | Failed

  class Throttle {
    const maxRps: Option<real>
    const maxTpm: Option<int>
    var calls: seq<real>
    var tokens: seq<Spend>
    // Everything ever admitted, and how much of it has left the deques.
    ghost var history: seq<real>
    ghost var spends: seq<Spend>
    ghost var droppedCalls: nat
    ghost var droppedSpends: nat
    // The latest clock reading taken under the lock.
    ghost var latest: real

    constructor (maxRps: Option<real>, maxTpm: Option<int>, start: real)
      ensures Valid() && history == [] && spends == [] && latest == start
      ensures this.maxRps == maxRps && this.maxTpm == maxTpm
    {
      this.maxRps, this.maxTpm := maxRps, maxTpm;
      calls, tokens, history, spends := [], [], [], [];
      droppedCalls, droppedSpends, latest := 0, 0, start;
    }

    /** The ceilings hold over everything ever admitted. */
    ghost predicate WindowsFit()
      reads this
    {
      && (maxRps.Some? ==> CallsFit(history, maxRps.value))
      && (maxTpm.Some? ==> TokensFit(spends, maxTpm.value))
    }

    ghost predicate Valid()
      reads this
    {
      && WindowsFit()
      && CallDeque(calls, history, droppedCalls, latest)
      && SpendDeque(tokens, spends, droppedSpends, latest)
      && Recorded(history, spends, latest)
    }

    ghost predicate Pruned(now: real)
      reads this
    {
      (calls != [] ==> now - calls[0] <= 1.0) && (tokens != [] ==> now - tokens[0].time <= 60.0)
    }

    /** The next prune at this time will drop something. */
    ghost predicate Stale(now: real)
      reads this
    {
      (calls != [] && now - calls[0] > 1.0) || (tokens != [] && now - tokens[0].time > 60.0)
    }

    method PruneCalls(now: real)
      requires CallDeque(calls, history, droppedCalls, now)
      modifies this`calls, this`droppedCalls
      ensures CallDeque(calls, history, droppedCalls, now)
      ensures calls != [] ==> now - calls[0] <= 1.0
      ensures |calls| <= |old(calls)| && (|calls| == |old(calls)| ==> calls == old(calls))
    {
      while calls != [] && now - calls[0] > 1.0
        invariant CallDeque(calls, history, droppedCalls, now)
        invariant |calls| <= |old(calls)| && (|calls| == |old(calls)| ==> calls == old(calls))
      {
        CallLeaves(calls, history, droppedCalls, now);
        calls, droppedCalls := calls[1..], droppedCalls + 1;
      }
    }

    method PruneTokens(now: real)
      requires SpendDeque(tokens, spends, droppedSpends, now)
      modifies this`tokens, this`droppedSpends
      ensures SpendDeque(tokens, spends, droppedSpends, now)
      ensures tokens != [] ==> now - tokens[0].time <= 60.0
      ensures |tokens| <= |old(tokens)| && (|tokens| == |old(tokens)| ==> tokens == old(tokens))
    {
      while tokens != [] && now - tokens[0].time > 60.0
        invariant SpendDeque(tokens, spends, droppedSpends, now)
        invariant |tokens| <= |old(tokens)| && (|tokens| == |old(tokens)| ==> tokens == old(tokens))
      {
        SpendLeaves(tokens, spends, droppedSpends, now);
        tokens, droppedSpends := tokens[1..], droppedSpends + 1;
      }
    }

    method Prune(now: real)
      requires Valid() && now >= latest
      modifies this`calls, this`tokens, this`droppedCalls, this`droppedSpends, this`latest
      ensures Valid() && latest == now && Pruned(now)
      ensures |calls| <= |old(calls)| && |tokens| <= |old(tokens)|
      ensures old(Stale(now)) ==> |calls| + |tokens| < |old(calls)| + |old(tokens)|
    {
      latest := now;
      PruneCalls(now);
      PruneTokens(now);
    }

    /** Recording an admission that neither window blocks. */
    method Admit(now: real, estimate: int)
      requires Valid() && latest == now
      requires maxRps.Some? ==> |calls| as real < maxRps.value
      requires maxTpm.Some? && estimate > 0 ==> estimate > maxTpm.value || Sum(tokens) + estimate <= maxTpm.value
      modifies this`calls, this`tokens, this`history, this`spends
      ensures Valid()
      ensures history == old(history) + [now]
      ensures spends == old(spends) + (if estimate > 0 then [Spend(now, estimate)] else [])
    {
      hide CallDeque, SpendDeque, CallsFit, TokensFit, Sum;
      if maxRps.Some? {
        CallWindowsKept(calls, history, droppedCalls, now, maxRps.value);
      }
      CallEnters(calls, history, droppedCalls, now);
      calls, history := calls + [now], history + [now];
      if estimate > 0 {
        assert AscendingSpends(spends + [Spend(now, estimate)]);
        SpendEnters(tokens, spends, droppedSpends, Spend(now, estimate), now);
        if maxTpm.Some? {
          TokenWindowsKept(tokens, spends, droppedSpends, Spend(now, estimate), maxTpm.value);
        }
        tokens, spends := tokens + [Spend(now, estimate)], spends + [Spend(now, estimate)];
      }
    }

    /** A ceiling of zero or less blocks a call although the window is empty. */
    predicate NeverAdmits()
      reads this
    {
      maxRps.Some? && maxRps.value <= 0.0
    }

    /** Under such a ceiling nothing was ever admitted. */
    lemma NothingAdmitted()
      requires Valid() && NeverAdmits()
      ensures calls == [] && history == []
    {
      if history != [] {
        NoneFits(history, maxRps.value);
      }
    }

    /** The window of calls blocks one more; the window of tokens blocks this many more. */
    predicate CallsBlock()
      reads this
    {
      maxRps.Some? && |calls| as real >= maxRps.value
    }

    predicate TokensBlock(estimate: int)
      reads this
    {
      maxTpm.Some? && 0 < estimate <= maxTpm.value && Sum(tokens) + estimate > maxTpm.value
    }

    /** At this time some window that blocks the call still has all of its events. */
    predicate StillBlocked(time: real, estimate: int)
      reads this
    {
      (CallsBlock() && calls != [] && time - calls[0] <= 1.0) || (TokensBlock(estimate) && tokens != [] && time - tokens[0].time <= 60.0)
    }

    /** _wait_needed: zero or less exactly when neither window blocks the call; after a positive
        wait each window that blocks has lost its oldest event, and no wait that is shorter by
        more than 0.01 s would do. None is the exception raised on the oldest call of an empty
        window. */
    method WaitNeeded(now: real, estimate: int) returns (needed: Option<real>)
      requires Pruned(now)
      ensures needed.None? <==> NeverAdmits() && calls == []
      ensures needed.Some? ==>
                (needed.value <= 0.0 <==>
                  && (maxRps.Some? ==> |calls| as real < maxRps.value)
                  && (maxTpm.Some? && estimate > 0 ==> estimate > maxTpm.value || Sum(tokens) + estimate <= maxTpm.value))
      ensures needed.Some? && needed.value > 0.0 ==> Stale(now + needed.value)
      ensures needed.Some? && CallsBlock() ==> calls != [] && now + needed.value - calls[0] > 1.0
      ensures needed.Some? && TokensBlock(estimate) ==> tokens != [] && now + needed.value - tokens[0].time > 60.0
      ensures needed.Some? && needed.value > 0.0 ==> forall time :: time < now + needed.value - 0.01 ==> StillBlocked(time, estimate)
    {
      var wait := 0.0;
      if maxRps.Some? && |calls| as real >= maxRps.value {
        if calls == [] {
          return None;
        }
        var w := 1.0 - (now - calls[0]) + 0.01;
        wait := if w > wait then w else wait;
      }
      if maxTpm.Some? && estimate > 0 {
        if estimate > maxTpm.value {
          return Some(wait);
        }
        var current := 0;
        var i := 0;
        while i < |tokens|
          invariant 0 <= i <= |tokens| && current == Sum(tokens[..i])
        {
          assert tokens[..i + 1][..i] == tokens[..i];
          current := current + tokens[i].tokens;
          i := i + 1;
        }
        assert tokens[..i] == tokens;
        if current + estimate > maxTpm.value {
          var oldest := if tokens != [] then tokens[0].time else now;
          var w := 60.0 - (now - oldest) + 0.01;
          wait := if w > wait then w else wait;
        }
      }
      return Some(wait);
    }

    /** One critical section of `acquire`. Threads interleave at this granularity, and a
        monotonic clock read under the lock never goes back. */
    method TryAcquire(now: real, estimate: int) returns (attempt: Attempt)
      requires Valid() && now >= latest
      modifies this
      ensures Valid() && latest == now
      ensures attempt.Failed? <==> NeverAdmits()
      ensures if attempt.Admitted?
              then history == old(history) + [now]
                   && spends == old(spends) + (if estimate > 0 then [Spend(now, estimate)] else [])
              else history == old(history) && spends == old(spends)
      ensures attempt.Blocked? ==>
                && attempt.wait > 0.0 && Stale(now + attempt.wait)
                && (forall time :: time < now + attempt.wait - 0.01 ==> StillBlocked(time, estimate))
                && |calls| + |tokens| <= |old(calls)| + |old(tokens)|
                && (old(Stale(now)) ==> |calls| + |tokens| < |old(calls)| + |old(tokens)|)
    {
      Prune(now);
      if NeverAdmits() {
        NothingAdmitted();
      }
      var needed := WaitNeeded(now, estimate);
      if needed.None? {
        return Failed;
      }
      if needed.value <= 0.0 {
        Admit(now, estimate);
        return Admitted;
      }
      return Blocked(needed.value);
    }

    /** `acquire` with no other thread at work: sleeping lasts at least as long as asked, and
        each sleep makes the next prune drop an event, so the loop ends with an admission; under a
        call ceiling of zero or less it ends at once with an exception. */
    method Acquire(start: real, estimate: int, oversleep: nat -> real) returns (admittedAt: Option<real>, sleeps: nat)
      requires Valid() && start >= latest
      requires forall k: nat :: oversleep(k) >= 0.0
      modifies this
      ensures Valid() && (admittedAt.None? <==> NeverAdmits())
      ensures admittedAt.None? ==> sleeps == 0 && history == old(history) && spends == old(spends)
      ensures admittedAt.Some? ==>
                && latest == admittedAt.value >= start
                && history == old(history) + [admittedAt.value]
                && spends == old(spends) + (if estimate > 0 then [Spend(admittedAt.value, estimate)] else [])
      ensures sleeps <= |old(calls)| + |old(tokens)|
    {
      var now := start;
      sleeps := 0;
      while true
        invariant Valid() && now >= latest && now >= start
        invariant history == old(history) && spends == old(spends)
        invariant sleeps > 0 ==> !NeverAdmits()
        invariant if sleeps == 0 then calls == old(calls) && tokens == old(tokens)
                  else Stale(now) && sleeps - 1 + |calls| + |tokens| <= |old(calls)| + |old(tokens)|
        decreases |calls| + |tokens|, sleeps == 0
      {
        var attempt := TryAcquire(now, estimate);
        match attempt {
          case Failed => return None, sleeps;
          case Admitted => return Some(now), sleeps;
          case Blocked(wait) =>
            now := now + wait + oversleep(sleeps);
            sleeps := sleeps + 1;
        }
      }
    }
  }
}
