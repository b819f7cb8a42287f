/** Weighted pacing and leaky buckets over real time. */
module RpcLimiter {
  // The limiters of `rpc_limiter.py` with the bound they keep over every interval of time. Rounding
  // of floating point is not modelled: times and units are reals.

  import opened Wrappers

  /** One granted request: when it may start, and its weight. */
  datatype Grant = Grant(started: real, units: real)

  /** What a rate allows in a stretch of time. */
  function Allowed(rate: real, t: real): real {
    rate * t
  }

  /** How long a rate needs for some units. */
  function TimeFor(units: real, rate: real): real
    requires rate > 0.0
  {
    units / rate
  }

  // ---- sums over the log ----

  /** Units of the grants from index `i` on. */
  function SumFrom(log: seq<Grant>, i: nat): real
    requires i <= |log|
    decreases |log|
  {
    if i == |log| then 0.0 else SumFrom(log[..|log| - 1], i) + log[|log| - 1].units
  }

  /** Units of the grants that start in the interval from `a` to `b`. */
  function UnitsIn(log: seq<Grant>, a: real, b: real): real {
    if log == [] then 0.0
    else
      var g := log[|log| - 1];
      UnitsIn(log[..|log| - 1], a, b) + if a <= g.started <= b then g.units else 0.0
  }

  lemma SumMore(log: seq<Grant>, g: Grant, i: nat)
    requires i <= |log|
    ensures SumFrom(log + [g], i) == SumFrom(log, i) + g.units
  {
    assert (log + [g])[..|log|] == log;
  }

  ghost predicate Sorted(log: seq<Grant>) {
    forall i, j :: 0 <= i <= j < |log| ==> log[i].started <= log[j].started
  }

  ghost predicate Weighted(log: seq<Grant>) {
    forall i :: 0 <= i < |log| ==> log[i].units > 0.0
  }

  /** From every grant to the last one: no more than `slack` above the rate. */
  ghost predicate Within(log: seq<Grant>, rate: real, slack: real) {
    forall i :: 0 <= i < |log| ==> SumFrom(log, i) <= slack + Allowed(rate, log[|log| - 1].started - log[i].started)
  }

  /** Some grant is already as far above the rate as that. */
  ghost predicate Reached(log: seq<Grant>, rate: real, slack: real) {
    exists i: nat :: ReachedAt(log, rate, slack, i)
  }

  ghost predicate ReachedAt(log: seq<Grant>, rate: real, slack: real, i: nat) {
    i < |log| && SumFrom(log, i) == slack + Allowed(rate, log[|log| - 1].started - log[i].started)
  }

  /** The same for every prefix of the log, with the slack each mode allows at its last grant. */
  ghost predicate Bounded(log: seq<Grant>, rate: real, capacity: Option<real>) {
    forall n :: 0 < n <= |log| ==> Within(log[..n], rate, Slack(log[n - 1], capacity))
  }

  function Slack(g: Grant, capacity: Option<real>): real {
    match capacity
    case Some(c) => c
    case None => g.units
  }

  // ---- from prefixes to intervals ----

  lemma {:induction false} FirstFrom(log: seq<Grant>, a: real) returns (i: nat)
    requires Sorted(log)
    ensures i <= |log| && (forall k :: 0 <= k < i ==> log[k].started < a)
    ensures forall k :: i <= k < |log| ==> log[k].started >= a
    decreases |log|
  {
    if log == [] {
      i := 0;
    } else {
      var rest := log[..|log| - 1];
      i := FirstFrom(rest, a);
      assert forall k :: 0 <= k < |rest| ==> log[k] == rest[k];
      if i == |rest| {
        i := if log[|rest|].started < a then |log| else |rest|;
      } else {
        assert rest[i].started >= a && log[i].started <= log[|rest|].started;
      }
    }
  }

  lemma {:induction false} UnitsAreSum(log: seq<Grant>, a: real, b: real, i: nat)
    requires i <= |log| && (forall k :: 0 <= k < i ==> log[k].started < a)
    requires forall k :: i <= k < |log| ==> a <= log[k].started <= b
    ensures UnitsIn(log, a, b) == SumFrom(log, i)
    decreases |log|
  {
    if log != [] {
      UnitsAreSum(log[..|log| - 1], a, b, if i < |log| then i else |log| - 1);
    }
  }

  lemma Proportion(rate: real, x: real, y: real)
    requires rate > 0.0 && x <= y
    ensures Allowed(rate, x) <= Allowed(rate, y) && (x < y ==> Allowed(rate, x) < Allowed(rate, y))
  {}

  lemma Stretch(units: real, slack: real, rate: real, x: real, y: real)
    requires rate > 0.0 && x <= y && units <= slack + Allowed(rate, x)
    ensures units <= slack + Allowed(rate, y)
  {
    Proportion(rate, x, y);
  }

  /** The last grant of the interval: the next one, if any, starts after it. */
  predicate LastIn(log: seq<Grant>, i: int, a: real, b: real) {
    0 <= i < |log| && a <= log[i].started <= b && (i + 1 < |log| ==> log[i + 1].started > b)
  }

  ghost predicate IntervalOk(log: seq<Grant>, rate: real, capacity: Option<real>, a: real, b: real) {
    || UnitsIn(log, a, b) == 0.0
    || exists i :: LastIn(log, i, a, b) && UnitsIn(log, a, b) <= Slack(log[i], capacity) + Allowed(rate, b - a)
  }

  lemma LastInside(log: seq<Grant>, rate: real, capacity: Option<real>, a: real, b: real)
    requires rate > 0.0 && log != [] && log[|log| - 1].started <= b && Sorted(log)
    requires Within(log, rate, Slack(log[|log| - 1], capacity))
    ensures IntervalOk(log, rate, capacity, a, b)
  {
    var g := log[|log| - 1];
    var i := FirstFrom(log, a);
    UnitsAreSum(log, a, b, i);
    if i < |log| {
      assert SumFrom(log, i) <= Slack(g, capacity) + Allowed(rate, g.started - log[i].started);
      hide Within, SumFrom, UnitsIn, Slack;
      Stretch(UnitsIn(log, a, b), Slack(g, capacity), rate, g.started - log[i].started, b - a);
      assert LastIn(log, |log| - 1, a, b);
    }
  }

  /** What the modes allow in any interval: the slack of its last grant above the rate. */
  lemma {:induction false} IntervalBound(log: seq<Grant>, rate: real, capacity: Option<real>, a: real, b: real)
    requires rate > 0.0 && a <= b && Sorted(log) && Bounded(log, rate, capacity)
    ensures IntervalOk(log, rate, capacity, a, b)
    decreases |log|
  {
    if log != [] {
      var g, rest := log[|log| - 1], log[..|log| - 1];
      if g.started > b {
        BoundedPrefix(log, rate, capacity);
        IntervalBound(rest, rate, capacity, a, b);
        OutsideMore(log, rate, capacity, a, b);
      } else {
        assert log[..|log|] == log;
        assert Within(log, rate, Slack(g, capacity));
        hide Bounded, Within, Sorted, Slack;
        LastInside(log, rate, capacity, a, b);
      }
    }
  }

  /** A grant after the interval changes nothing in it. */
  lemma OutsideMore(log: seq<Grant>, rate: real, capacity: Option<real>, a: real, b: real)
    requires log != [] && log[|log| - 1].started > b && IntervalOk(log[..|log| - 1], rate, capacity, a, b)
    ensures IntervalOk(log, rate, capacity, a, b)
  {
    var rest := log[..|log| - 1];
    assert UnitsIn(log, a, b) == UnitsIn(rest, a, b);
    hide UnitsIn, Slack, Allowed;
    if UnitsIn(rest, a, b) != 0.0 {
      var i :| LastIn(rest, i, a, b) && UnitsIn(rest, a, b) <= Slack(rest[i], capacity) + Allowed(rate, b - a);
      assert log[i] == rest[i] && LastIn(log, i, a, b);
    }
  }

  lemma BoundedPrefix(log: seq<Grant>, rate: real, capacity: Option<real>)
    requires log != [] && Sorted(log) && Bounded(log, rate, capacity)
    ensures Sorted(log[..|log| - 1]) && Bounded(log[..|log| - 1], rate, capacity)
  {
    hide Within;
    var rest := log[..|log| - 1];
    forall n | 0 < n <= |rest| ensures Within(rest[..n], rate, Slack(rest[n - 1], capacity)) {
      assert rest[..n] == log[..n];
    }
  }

  // ---- one more grant ----

  lemma BoundedMore(log: seq<Grant>, g: Grant, rate: real, capacity: Option<real>)
    requires Bounded(log, rate, capacity) && Within(log + [g], rate, Slack(g, capacity))
    ensures Bounded(log + [g], rate, capacity)
  {
    hide Within;
    var longer := log + [g];
    forall n | 0 < n <= |longer| ensures Within(longer[..n], rate, Slack(longer[n - 1], capacity)) {
      if n <= |log| {
        assert longer[..n] == log[..n];
      } else {
        assert longer[..n] == longer;
      }
    }
  }

  /** Pacing: a start no earlier than the last one's share of the rate keeps the bound. */
  lemma PacedWithin(log: seq<Grant>, g: Grant, rate: real)
    requires rate > 0.0 && log != [] && Within(log, rate, log[|log| - 1].units)
    requires Allowed(rate, g.started - log[|log| - 1].started) >= log[|log| - 1].units
    ensures Within(log + [g], rate, g.units)
  {
    var longer, last := log + [g], log[|log| - 1];
    forall i | 0 <= i < |longer| ensures SumFrom(longer, i) <= g.units + Allowed(rate, g.started - longer[i].started) {
      if i < |log| {
        SumMore(log, g, i);
        Distribute(rate, g.started, last.started, log[i].started);
      } else {
        assert SumFrom(longer, i) == SumFrom(longer[..|log|], i) + g.units;
      }
    }
  }

  lemma Distribute(rate: real, a: real, b: real, c: real)
    ensures Allowed(rate, a - b) + Allowed(rate, b - c) == Allowed(rate, a - c)
  {}

  /** The bucket's level covers every suffix of the log, drained at the rate. */
  lemma BucketWithin(log: seq<Grant>, g: Grant, rate: real, level: real, level': real)
    requires rate > 0.0 && g.units <= level'
    requires log != [] ==>
               Within(log, rate, level) && level - Allowed(rate, g.started - log[|log| - 1].started) + g.units <= level'
    ensures Within(log + [g], rate, level')
  {
    var longer := log + [g];
    forall i | 0 <= i < |longer| ensures SumFrom(longer, i) <= level' + Allowed(rate, g.started - longer[i].started) {
      if i < |log| {
        SumMore(log, g, i);
        Distribute(rate, g.started, log[|log| - 1].started, log[i].started);
      } else {
        assert SumFrom(longer, i) == SumFrom(longer[..|log|], i) + g.units;
      }
    }
  }

  lemma WiderWithin(log: seq<Grant>, rate: real, slack: real, wider: real)
    requires Within(log, rate, slack) && slack <= wider
    ensures Within(log, rate, wider)
  {}

  /** One grant more keeps the pace when it starts no earlier than the limiter allows. */
  lemma PaceStep(log: seq<Grant>, g: Grant, rate: real)
    requires rate > 0.0 && g.units > 0.0 && Sorted(log) && Weighted(log) && Bounded(log, rate, None)
    requires log != [] ==> g.started >= log[|log| - 1].started + TimeFor(log[|log| - 1].units, rate)
    ensures Sorted(log + [g]) && Weighted(log + [g]) && Bounded(log + [g], rate, None)
  {
    hide Within, Bounded;
    if log != [] {
      var last := log[|log| - 1];
      Quotient(last.units, rate);
      Proportion(rate, TimeFor(last.units, rate), g.started - last.started);
      LastWithin(log, rate, None);
      PacedWithin(log, g, rate);
    } else {
      FirstWithin(g, rate, g.units);
      assert log + [g] == [g];
    }
    BoundedMore(log, g, rate, None);
  }

  lemma LastWithin(log: seq<Grant>, rate: real, capacity: Option<real>)
    requires log != [] && Bounded(log, rate, capacity)
    ensures Within(log, rate, Slack(log[|log| - 1], capacity))
  {
    assert log[..|log|] == log;
  }

  lemma FirstWithin(g: Grant, rate: real, slack: real)
    requires g.units <= slack
    ensures Within([g], rate, slack)
  {
    assert SumFrom([g], 0) == SumFrom([g][..0], 0) + g.units;
  }

  /** One grant more keeps the bucket's bound when its level stays within the capacity. */
  lemma BucketStep(log: seq<Grant>, g: Grant, rate: real, capacity: real, level: real, level': real)
    requires rate > 0.0 && 0.0 < g.units <= level' <= capacity && Sorted(log) && Weighted(log)
    requires Bounded(log, rate, Some(capacity))
    requires log != [] ==> log[|log| - 1].started <= g.started && Within(log, rate, level)
    requires log != [] ==> level - Allowed(rate, g.started - log[|log| - 1].started) + g.units <= level'
    ensures Sorted(log + [g]) && Weighted(log + [g]) && Bounded(log + [g], rate, Some(capacity))
    ensures Within(log + [g], rate, level')
  {
    BucketWithin(log, g, rate, level, level');
    WiderWithin(log + [g], rate, level', capacity);
    hide Within;
    BoundedMore(log, g, rate, Some(capacity));
    hide Bounded;
  }

  /** A drained level that was reached is reached again, and a bucket that ran empty holds the new grant alone. */
  lemma BucketReaches(log: seq<Grant>, g: Grant, rate: real, level: real, level': real)
    requires level' == g.units || (log != [] && Reached(log, rate, level)
                                   && level' == level - Allowed(rate, g.started - log[|log| - 1].started) + g.units)
    ensures Reached(log + [g], rate, level')
  {
    var longer := log + [g];
    if level' == g.units {
      assert SumFrom(longer, |log|) == SumFrom(longer[..|log|], |log|) + g.units;
      assert ReachedAt(longer, rate, level', |log|);
    } else {
      var i: nat :| ReachedAt(log, rate, level, i);
      SumMore(log, g, i);
      Distribute(rate, g.started, log[|log| - 1].started, log[i].started);
      assert ReachedAt(longer, rate, level', i);
    }
  }

  /** A grant that comes too early for a level that was reached breaks the bound. */
  lemma TooEarly(log: seq<Grant>, g: Grant, rate: real, level: real, slack: real)
    requires log != [] && Reached(log, rate, level)
    requires level - Allowed(rate, g.started - log[|log| - 1].started) + g.units > slack
    ensures !Within(log + [g], rate, slack)
  {
    var i: nat :| ReachedAt(log, rate, level, i);
    SumMore(log, g, i);
    Distribute(rate, g.started, log[|log| - 1].started, log[i].started);
    assert (log + [g])[i] == log[i];
    assert SumFrom(log + [g], i) > slack + Allowed(rate, g.started - log[i].started);
  }

  /** At any pace a log reaches the weight of its last grant. */
  lemma LastReaches(log: seq<Grant>, rate: real)
    requires log != []
    ensures Reached(log, rate, log[|log| - 1].units)
  {
    assert ReachedAt(log, rate, log[|log| - 1].units, |log| - 1);
  }

  lemma Quotient(x: real, rate: real)
    requires rate > 0.0
    ensures Allowed(rate, TimeFor(x, rate)) == x && (x > 0.0 <==> TimeFor(x, rate) > 0.0)
  {}

  lemma Sooner(over: real, rate: real, waited: real)
    requires rate > 0.0 && waited < TimeFor(over, rate)
    ensures Allowed(rate, waited) < over
  {
    Quotient(over, rate);
    Proportion(rate, waited, TimeFor(over, rate));
  }

  lemma LongEnough(over: real, rate: real, waited: real)
    requires rate > 0.0 && waited >= TimeFor(over, rate)
    ensures Allowed(rate, waited) >= over
  {
    Quotient(over, rate);
    Proportion(rate, TimeFor(over, rate), waited);
  }

  // ---- the limiter ----

  datatype Result = Started(delay: real, at: real) | PastDeadline

  class Limiter {
    const rate: real
    const capacity: Option<real>
    var nextAt: real
    var level: real
    var updatedAt: Option<real>
    ghost var log: seq<Grant>

    ghost predicate Valid()
      reads this
    {
      && rate > 0.0 && (capacity.Some? ==> capacity.value > 0.0)
      && Sorted(log) && Weighted(log) && Bounded(log, rate, capacity)
      && (capacity.None? && log == [] ==> nextAt == 0.0)
      && (capacity.None? && log != [] ==> nextAt == log[|log| - 1].started + TimeFor(log[|log| - 1].units, rate))
      && (capacity.Some? ==> BucketState())
    }

    ghost predicate BucketState()
      requires capacity.Some?
      reads this
    {
      && 0.0 <= level <= capacity.value && (updatedAt.None? <==> log == [])
      && (log == [] ==> level == 0.0)
      && (log != [] ==> updatedAt == Some(log[|log| - 1].started) && Within(log, rate, level)
                         && Reached(log, rate, level))
    }

    constructor (rate: real, capacity: Option<real>)
      requires rate > 0.0 && (capacity.Some? ==> capacity.value > 0.0)
      ensures Valid() && this.rate == rate && this.capacity == capacity && log == [] && nextAt == 0.0
    {
      this.rate, this.capacity := rate, capacity;
      nextAt, level, updatedAt := 0.0, 0.0, None;
      log := [];
    }

    /** The level after draining until `now`. */
    function Drained(now: real): real
      reads this
    {
      var elapsed := match updatedAt case Some(t) => Larger(0.0, now - t) case None => 0.0;
      Larger(0.0, level - Allowed(rate, elapsed))
    }

    /** The shortest wait before `units` may start. */
    function Wait(units: real, now: real): real
      requires rate > 0.0
      reads this
    {
      match capacity
      case None => Larger(0.0, nextAt - now)
      case Some(c) => Larger(0.0, TimeFor(Drained(now) + units - c, rate))
    }

    /** Readings of one clock: `now` on entry, `later` after any sleep. */
    ghost predicate Monotone(now: real, later: real)
      reads this
    {
      now <= later && (capacity.Some? && log != [] ==> log[|log| - 1].started <= now)
    }

    /** Waits for a slot, or refuses before `deadline` without any change. */
    method Acquire(units: real, deadline: Option<real>, now: real, later: real) returns (r: Result)
      requires Valid() && units > 0.0 && (capacity.Some? ==> units <= capacity.value) && Monotone(now, later)
      modifies this
      ensures Valid()
      ensures r.PastDeadline? ==>
                log == old(log) && nextAt == old(nextAt) && level == old(level) && updatedAt == old(updatedAt)
      ensures r.PastDeadline? <==> deadline.Some? && Larger(later, now + old(Wait(units, now))) >= deadline.value
      ensures r.Started? ==> r.delay == old(Wait(units, now)) && r.at == Larger(later, now + r.delay)
      ensures r.Started? ==> log == old(log) + [Grant(r.at, units)]
      ensures r.Started? && capacity.None? ==> nextAt == r.at + TimeFor(units, rate)
      ensures r.Started? && capacity.Some? ==> updatedAt == Some(r.at) && level == old(Filled(units, now, r.at))
    {
      hide Sorted, Weighted, Bounded, Within, Reached, Slack;
      var delay := Wait(units, now);
      if deadline.Some? && now + delay >= deadline.value {
        return PastDeadline;
      }
      var started := Larger(later, now + delay);
      if deadline.Some? && started >= deadline.value {
        return PastDeadline;
      }
      ghost var g := Grant(started, units);
      if capacity.None? {
        PaceKept(units, now, later);
        nextAt := started + TimeFor(units, rate);
      } else {
        WaitIsForward(units, now);
        BucketKept(units, now, started);
        level := Filled(units, now, started);
        updatedAt := Some(started);
      }
      log := log + [g];
      return Started(delay, started);
    }

    lemma PaceKept(units: real, now: real, later: real)
      requires Valid() && capacity.None? && units > 0.0 && Monotone(now, later)
      ensures var g := Grant(Larger(later, now + Wait(units, now)), units);
              Sorted(log + [g]) && Weighted(log + [g]) && Bounded(log + [g], rate, capacity)
    {
      hide Sorted, Weighted, Bounded;
      var g := Grant(Larger(later, now + Wait(units, now)), units);
      assert g.started >= nextAt;
      PaceStep(log, g, rate);
    }

    /** The level after a request that starts at `started`. */
    function Filled(units: real, now: real, started: real): real
      reads this
    {
      Larger(0.0, Drained(now) - Allowed(rate, started - now)) + units
    }

    lemma BucketKept(units: real, now: real, started: real)
      requires Valid() && capacity.Some? && 0.0 < units <= capacity.value
      requires now <= started && now + Wait(units, now) <= started && (log != [] ==> log[|log| - 1].started <= now)
      ensures var g := Grant(started, units);
              && Sorted(log + [g]) && Weighted(log + [g]) && Bounded(log + [g], rate, capacity)
              && 0.0 <= Filled(units, now, started) <= capacity.value
              && Within(log + [g], rate, Filled(units, now, started))
              && Reached(log + [g], rate, Filled(units, now, started))
    {
      hide Sorted, Weighted, Bounded, Within, Reached, Wait;
      var g, level' := Grant(started, units), Filled(units, now, started);
      FitsCapacity(units, now, started);
      assert units <= level';
      if log != [] {
        DrainedTwice(now, started, log[|log| - 1].started, units);
      }
      BucketReaches(log, g, rate, level, level');
      hide Filled;
      assert capacity == Some(capacity.value);
      BucketStep(log, g, rate, capacity.value, level, level');
    }

    /** Starting at `t` would keep the bounds that the limiter promises. */
    ghost predicate Admissible(units: real, t: real)
      reads this
    {
      Sorted(log + [Grant(t, units)]) && Bounded(log + [Grant(t, units)], rate, capacity)
    }

    /** The wait is the shortest: from now on, exactly the times after it are admissible. */
    lemma WaitIsLeast(units: real, now: real, t: real)
      requires Valid() && units > 0.0 && (capacity.Some? ==> units <= capacity.value)
      requires now <= t && Monotone(now, now) && (log == [] ==> now >= 0.0)
      ensures Admissible(units, t) <==> t >= now + Wait(units, now)
    {
      var g := Grant(t, units);
      if t >= now + Wait(units, now) {
        if capacity.None? {
          PaceKept(units, now, t);
        } else {
          BucketKept(units, now, t);
        }
      } else {
        EarlyIsNotWithin(units, now, t);
        if Bounded(log + [g], rate, capacity) {
          LastWithin(log + [g], rate, capacity);
        }
      }
      hide *;
    }

    lemma EarlyIsNotWithin(units: real, now: real, t: real)
      requires Valid() && units > 0.0 && (capacity.Some? ==> units <= capacity.value)
      requires now <= t < now + Wait(units, now) && Monotone(now, now) && (log == [] ==> now >= 0.0)
      ensures !Within(log + [Grant(t, units)], rate, Slack(Grant(t, units), capacity))
    {
      var g := Grant(t, units);
      hide Sorted, Weighted, Bounded, Within, Reached;
      var last := log[|log| - 1];
      if capacity.None? {
        Sooner(last.units, rate, t - last.started);
        LastReaches(log, rate);
        TooEarly(log, g, rate, last.units, units);
      } else {
        Sooner(Drained(now) + units - capacity.value, rate, t - now);
        Distribute(rate, t, now, last.started);
        TooEarly(log, g, rate, level, capacity.value);
      }
    }

    lemma WaitIsForward(units: real, now: real)
      requires rate > 0.0
      ensures Wait(units, now) >= 0.0
    {}

    lemma FitsCapacity(units: real, now: real, started: real)
      requires rate > 0.0 && capacity.Some? && units <= capacity.value && started >= now + Wait(units, now)
      ensures Filled(units, now, started) <= capacity.value
    {
      hide Drained;
      LongEnough(Drained(now) + units - capacity.value, rate, started - now);
    }

    lemma DrainedTwice(now: real, started: real, last: real, units: real)
      requires rate > 0.0 && updatedAt == Some(last) && last <= now <= started
      ensures level - Allowed(rate, started - last) + units <= Filled(units, now, started)
      ensures Filled(units, now, started) == units
              || Filled(units, now, started) == level - Allowed(rate, started - last) + units
    {
      Distribute(rate, started, now, last);
      assert Drained(now) >= level - Allowed(rate, now - last);
    }
  }

  // ---- what the modes promise ----

  /** Bucket mode: in any interval, at most the capacity above the rate. */
  lemma BucketRate(limiter: Limiter, a: real, b: real)
    requires limiter.Valid() && limiter.capacity.Some? && a <= b
    ensures UnitsIn(limiter.log, a, b) <= limiter.capacity.value + Allowed(limiter.rate, b - a)
  {
    IntervalBound(limiter.log, limiter.rate, limiter.capacity, a, b);
    Proportion(limiter.rate, 0.0, b - a);
    hide UnitsIn, Sorted, Weighted, Bounded, Within;
  }

  /** Pacing mode: in any interval, at most the weight of its last request above the rate. */
  lemma PaceRate(limiter: Limiter, a: real, b: real)
    requires limiter.Valid() && limiter.capacity.None? && a <= b
    ensures var log := limiter.log;
            || UnitsIn(log, a, b) == 0.0
            || exists i :: LastIn(log, i, a, b) && UnitsIn(log, a, b) <= log[i].units + Allowed(limiter.rate, b - a)
  {
    IntervalBound(limiter.log, limiter.rate, limiter.capacity, a, b);
    hide UnitsIn, Sorted, Weighted, Bounded, Within, LastIn;
    if UnitsIn(limiter.log, a, b) != 0.0 {
      var i :| LastIn(limiter.log, i, a, b)
               && UnitsIn(limiter.log, a, b) <= Slack(limiter.log[i], limiter.capacity) + Allowed(limiter.rate, b - a);
    }
  }

  // ---- two lanes ----

  /** Indexed history takes its own lane and then the common one (`ProviderLimiters.acquire`). */
  class Lanes {
    const indexed: Limiter
    const common: Limiter

    constructor (indexedRate: real, commonRate: real)
      requires indexedRate > 0.0 && commonRate > 0.0
      ensures indexed.Valid() && common.Valid() && fresh(indexed) && fresh(common) && indexed != common
      ensures indexed.log == [] && common.log == [] && indexed.rate == indexedRate && common.rate == commonRate
      ensures indexed.capacity == None && common.capacity == None && indexed.nextAt == common.nextAt == 0.0
    {
      indexed := new Limiter(indexedRate, None);
      common := new Limiter(commonRate, None);
    }

    /**
     A deadline that the common lane misses leaves the indexed lane charged: a refusal changes
     nothing exactly when the indexed lane itself refuses.
     */
    method AcquireHistory(deadline: Option<real>, now: real, later: real, now': real, later': real) returns (r: Result)
      requires indexed != common && indexed.Valid() && common.Valid() && indexed.capacity.None? && common.capacity.None?
      requires now <= later <= now' <= later'
      modifies indexed, common
      ensures indexed.Valid() && common.Valid()
      ensures var first, second := old(indexed.Wait(1.0, now)), old(common.Wait(1.0, now'));
              r.Started? ==>
                && r.delay == first + second && r.at == Larger(later', now' + second)
                && indexed.log == old(indexed.log) + [Grant(Larger(later, now + first), 1.0)]
                && common.log == old(common.log) + [Grant(r.at, 1.0)]
      ensures r.PastDeadline? ==> common.log == old(common.log) && common.nextAt == old(common.nextAt)
      ensures var refused := deadline.Some? && Larger(later, now + old(indexed.Wait(1.0, now))) >= deadline.value;
              && (r.PastDeadline? == (refused
                    || (deadline.Some? && Larger(later', now' + old(common.Wait(1.0, now'))) >= deadline.value)))
              && (r.PastDeadline? ==> (indexed.log == old(indexed.log) <==> refused))
              && (!refused ==> indexed.nextAt == Larger(later, now + old(indexed.Wait(1.0, now))) + 1.0 / indexed.rate)
    {
      var first := indexed.Acquire(1.0, deadline, now, later);
      if first.PastDeadline? {
        return PastDeadline;
      }
      assert |indexed.log| == |old(indexed.log)| + 1;
      r := common.Acquire(1.0, deadline, now', later');
      if r.Started? {
        r := Started(first.delay + r.delay, r.at);
      }
    }
  }

  /** A refused history request that used up its indexed slot: the common lane was just taken. */
  method RefusalLeavesCharge() returns (refused: bool, indexedFreeAt: real)
    ensures refused && indexedFreeAt > 0.0
  {
    var lanes := new Lanes(2.0, 10.0);
    var _ := lanes.common.Acquire(1.0, None, 0.0, 0.0);
    assert lanes.common.nextAt == 0.1;
    var r := lanes.AcquireHistory(Some(0.05), 0.0, 0.0, 0.0, 0.0);
    refused, indexedFreeAt := r.PastDeadline?, lanes.indexed.nextAt;
  }
}
