/** The two lazily refilled token buckets of the server: `TokenBucket` of src/ip_limiter.rs, shared by
    the IP limiter and the per-tenant message limit, and its twin `RateLimiter` of src/server.rs.

    The classes update four fields in place. What they compute is the value-level function `Consume`,
    and the lemmas say what `Consume` means: a limiter that keeps four numbers gives the answers of one
    that keeps the time of every admission and counts them again on every call. */
module TokenBuckets {

  function MinReal(a: real, b: real): (r: real)
    ensures r <= a && r <= b && (r == a || r == b)
  {
    if a <= b then a else b
  }

  function MaxReal(a: real, b: real): (r: real)
    ensures r >= a && r >= b && (r == a || r == b)
  {
    if a >= b then a else b
  }

  /** What a bucket earns in some time. */
  function TokensToAdd(elapsed: real, refillPerSecond: real): real {
    elapsed * refillPerSecond
  }

  datatype Bucket = Bucket(capacity: real, tokens: real, rate: real, lastRefill: real) {
    ghost predicate Valid() {
      capacity >= 1.0 && rate >= 1.0 && 0.0 <= tokens <= capacity
    }

    /** The same bucket with its clock set in tokens. */
    ghost function ToGauge(): Gauge {
      Gauge(capacity, tokens, Earning(rate)(lastRefill))
    }

    /** The tokens a refill at time `t` would leave. */
    function TokensAt(t: real): real {
      MinReal(tokens + TokensToAdd(t - lastRefill, rate), capacity)
    }
  }

  /** A bucket that earns one token per unit of time. */
  datatype Gauge = Gauge(capacity: real, tokens: real, last: real) {
    ghost predicate Valid() {
      capacity >= 1.0 && 0.0 <= tokens <= capacity
    }
  }

  /** What a gauge would show at `now`. */
  ghost function Room(g: Gauge, now: real): real {
    MinReal(g.tokens + now - g.last, g.capacity)
  }

  ghost function Draw(g: Gauge, now: real): (Gauge, bool) {
    var filled := Room(g, now);
    if filled >= 1.0 then (Gauge(g.capacity, filled - 1.0, now), true) else (Gauge(g.capacity, filled, now), false)
  }

  function NewBucket(refillPerSecond: real, burst: real, now: real): (b: Bucket)
    ensures b.Valid() && b.tokens == b.capacity
  {
    var capacity := MaxReal(burst, 1.0);
    Bucket(capacity, capacity, MaxReal(refillPerSecond, 1.0), now)
  }

  function Refill(b: Bucket, now: real): Bucket {
    b.(tokens := b.TokensAt(now), lastRefill := now)
  }

  /** One call at time `now`: the bucket afterwards and whether the call is admitted. */
  function Consume(b: Bucket, now: real): (Bucket, bool) {
    var filled := Refill(b, now);
    if filled.tokens >= 1.0 then (filled.(tokens := filled.tokens - 1.0), true) else (filled, false)
  }

  // ----- The classes

  class TokenBucket {
    var capacity: real
    var tokens: real
    var refillPerSecond: real
    var lastRefill: real

    ghost function View(): Bucket
      reads this
    {
      Bucket(capacity, tokens, refillPerSecond, lastRefill)
    }

    constructor (refillPerSecond: real, burst: real, now: real)
      ensures View() == NewBucket(refillPerSecond, burst, now)
    {
      this.capacity := MaxReal(burst, 1.0);
      this.tokens := MaxReal(burst, 1.0);
      this.refillPerSecond := MaxReal(refillPerSecond, 1.0);
      this.lastRefill := now;
    }

    method TryConsume(now: real) returns (admitted: bool)
      modifies this
      ensures (View(), admitted) == Consume(old(View()), now)
    {
      RefillTo(now);
      if tokens >= 1.0 {
        tokens := tokens - 1.0;
        admitted := true;
      } else {
        admitted := false;
      }
    }

    method RefillTo(now: real)
      modifies this
      ensures View() == Refill(old(View()), now)
    {
      ghost var before := View();
      var elapsed := now - lastRefill;
      lastRefill := now;
      tokens := MinReal(tokens + elapsed * refillPerSecond, capacity);
      assert elapsed * refillPerSecond == TokensToAdd(elapsed, refillPerSecond);
      assert tokens == before.TokensAt(now);
    }
  }

  /** The per-connection limiter of the reader task: integer settings, the same arithmetic. */
  class RateLimiter {
    var capacity: real
    var tokens: real
    var refillPerSecond: real
    var lastRefill: real

    ghost function View(): Bucket
      reads this
    {
      Bucket(capacity, tokens, refillPerSecond, lastRefill)
    }

    constructor (refillPerSecond: nat, burst: nat, now: real)
      ensures View() == NewBucket(refillPerSecond as real, burst as real, now)
    {
      var whole := if burst >= 1 then burst else 1;
      var perSecond := if refillPerSecond >= 1 then refillPerSecond else 1;
      this.capacity := whole as real;
      this.tokens := whole as real;
      this.refillPerSecond := perSecond as real;
      this.lastRefill := now;
    }

    method Allow(now: real) returns (admitted: bool)
      modifies this
      ensures (View(), admitted) == Consume(old(View()), now)
    {
      RefillTo(now);
      if tokens >= 1.0 {
        tokens := tokens - 1.0;
        admitted := true;
      } else {
        admitted := false;
      }
    }

    method RefillTo(now: real)
      modifies this
      ensures View() == Refill(old(View()), now)
    {
      ghost var before := View();
      var elapsed := now - lastRefill;
      lastRefill := now;
      tokens := MinReal(tokens + TokensToAdd(elapsed, refillPerSecond), capacity);
      assert tokens == before.TokensAt(now);
    }
  }

  // ----- The history a bucket stands for

  ghost predicate Sorted(times: seq<real>) {
    forall i, j | 0 <= i <= j < |times| :: times[i] <= times[j]
  }

  ghost predicate From(start: real, times: seq<real>) {
    forall i | 0 <= i < |times| :: start <= times[i]
  }

  /** The history-scanning limiter: after admissions at `admitted`, one more at `now` is granted when every
      earlier admission leaves room, counting from it up to and including the new one. Times are in
      tokens: a second is worth the refill rate. */
  ghost predicate Fits(capacity: real, admitted: seq<real>, now: real) {
    forall i | 0 <= i < |admitted| :: (|admitted| - i + 1) as real <= capacity + now - admitted[i]
  }

  /** No window that starts and ends at an admission holds more than the capacity plus what it earned. */
  ghost predicate WindowBound(capacity: real, admitted: seq<real>) {
    forall i, j | 0 <= i <= j < |admitted| :: (j - i + 1) as real <= capacity + admitted[j] - admitted[i]
  }

  /** The room the history leaves at `now`; `admitted` is oldest first. */
  ghost function Level(capacity: real, admitted: seq<real>, now: real): real {
    if admitted == [] then capacity
    else MinReal(Level(capacity, admitted[1..], now), capacity + now - admitted[0] - |admitted| as real)
  }

  lemma {:induction false} LevelScans(capacity: real, admitted: seq<real>, now: real)
    requires capacity >= 1.0
    ensures Level(capacity, admitted, now) >= 1.0 <==> Fits(capacity, admitted, now)
  {
    if admitted != [] {
      var rest := admitted[1..];
      LevelScans(capacity, rest, now);
      if Fits(capacity, admitted, now) {
        forall i | 0 <= i < |rest| ensures (|rest| - i + 1) as real <= capacity + now - rest[i] {
          assert rest[i] == admitted[i + 1];
        }
      }
      if Fits(capacity, rest, now) && 1.0 <= capacity + now - admitted[0] - |admitted| as real {
        forall i | 0 <= i < |admitted| ensures (|admitted| - i + 1) as real <= capacity + now - admitted[i] {
          assert i > 0 ==> admitted[i] == rest[i - 1];
        }
      }
    }
  }

  lemma {:induction false} LevelAdvances(capacity: real, admitted: seq<real>, now: real, later: real)
    requires now <= later
    ensures Level(capacity, admitted, now) <= capacity
    ensures Level(capacity, admitted, later) == MinReal(Level(capacity, admitted, now) + later - now, capacity)
  {
    if admitted != [] {
      LevelAdvances(capacity, admitted[1..], now, later);
    }
  }

  lemma {:induction false} LevelAdmits(capacity: real, admitted: seq<real>, now: real)
    ensures Level(capacity, admitted + [now], now) == Level(capacity, admitted, now) - 1.0
  {
    LevelAdvances(capacity, admitted, now, now);
    if admitted == [] {
      assert (admitted + [now])[1..] == [];
    } else {
      LevelAdmits(capacity, admitted[1..], now);
      assert (admitted + [now])[1..] == admitted[1..] + [now];
    }
  }

  lemma BoundExtends(capacity: real, admitted: seq<real>, now: real)
    requires capacity >= 1.0
    ensures WindowBound(capacity, admitted + [now])
       <==> WindowBound(capacity, admitted) && Fits(capacity, admitted, now)
  {
    var all := admitted + [now];
    var n := |admitted|;
    if WindowBound(capacity, all) {
      forall i | 0 <= i < n ensures (n - i + 1) as real <= capacity + now - admitted[i] {
        assert (n - i + 1) as real <= capacity + all[n] - all[i];
      }
      forall i, j | 0 <= i <= j < n ensures (j - i + 1) as real <= capacity + admitted[j] - admitted[i] {
        assert (j - i + 1) as real <= capacity + all[j] - all[i];
      }
    }
  }

  /** `g` is the bucket after admissions at `admitted` and any number of refusals. */
  ghost predicate Tracks(g: Gauge, admitted: seq<real>) {
    g.Valid() && g.tokens == Level(g.capacity, admitted, g.last) && WindowBound(g.capacity, admitted)
  }

  /** One call keeps the correspondence, and its answer is the history scan's answer. A refused call
      leaves the history, and with it every later answer, as it was. */
  lemma DrawScansHistory(g: Gauge, admitted: seq<real>, now: real)
    requires Tracks(g, admitted) && g.last <= now
    ensures Draw(g, now).1 <==> Fits(g.capacity, admitted, now)
    ensures Tracks(Draw(g, now).0, if Draw(g, now).1 then admitted + [now] else admitted)
  {
    LevelAdvances(g.capacity, admitted, g.last, now);
    LevelScans(g.capacity, admitted, now);
    LevelAdmits(g.capacity, admitted, now);
    BoundExtends(g.capacity, admitted, now);
  }

  // ----- Whole runs

  /** The times of the calls that were answered with true. */
  ghost function Admitted(calls: seq<real>, answers: seq<bool>): seq<real>
    requires |calls| == |answers|
  {
    if calls == [] then []
    else
      var n := |calls| - 1;
      var early := Admitted(calls[..n], answers[..n]);
      if answers[n] then early + [calls[n]] else early
  }

  /** What the history-scanning limiter answers to a sequence of calls. */
  ghost function ScanRun(capacity: real, calls: seq<real>): (answers: seq<bool>)
    ensures |answers| == |calls|
  {
    if calls == [] then []
    else
      var n := |calls| - 1;
      var before := ScanRun(capacity, calls[..n]);
      before + [Fits(capacity, Admitted(calls[..n], before), calls[n])]
  }

  ghost function RunGauge(g: Gauge, calls: seq<real>): (r: (Gauge, seq<bool>))
    ensures |r.1| == |calls|
  {
    if calls == [] then (g, [])
    else
      var n := |calls| - 1;
      var before := RunGauge(g, calls[..n]);
      var last := Draw(before.0, calls[n]);
      (last.0, before.1 + [last.1])
  }

  lemma {:induction false} RunTracks(g: Gauge, calls: seq<real>)
    requires Tracks(g, []) && From(g.last, calls) && Sorted(calls)
    ensures var (after, answers) := RunGauge(g, calls); Tracks(after, Admitted(calls, answers))
    ensures RunGauge(g, calls).0.capacity == g.capacity
    ensures RunGauge(g, calls).0.last == if calls == [] then g.last else calls[|calls| - 1]
    ensures RunGauge(g, calls).1 == ScanRun(g.capacity, calls)
  {
    if calls != [] {
      var n := |calls| - 1;
      RunTracks(g, calls[..n]);
      var (before, answers) := RunGauge(g, calls[..n]);
      DrawScansHistory(before, Admitted(calls[..n], answers), calls[n]);
      assert RunGauge(g, calls).1[..n] == answers;
    }
  }

  // ----- Greedy optimality

  /** The potential: whatever a rival saved up by admitting less, the bucket has already handed out. */
  ghost predicate Ahead(capacity: real, mine: seq<real>, theirs: seq<real>, now: real) {
    && |theirs| <= |mine|
    && Level(capacity, theirs, now) + |theirs| as real <= Level(capacity, mine, now) + |mine| as real
  }

  lemma StaysAhead(g: Gauge, mine: seq<real>, theirs: seq<real>, now: real, rivalAdmits: bool)
    requires Tracks(g, mine) && g.last <= now && Ahead(g.capacity, mine, theirs, g.last)
    requires rivalAdmits ==> Fits(g.capacity, theirs, now)
    ensures Ahead(g.capacity,
                  if Draw(g, now).1 then mine + [now] else mine,
                  if rivalAdmits then theirs + [now] else theirs,
                  now)
  {
    LevelAdvances(g.capacity, mine, g.last, now);
    LevelAdvances(g.capacity, theirs, g.last, now);
    LevelAdmits(g.capacity, mine, now);
    LevelAdmits(g.capacity, theirs, now);
    LevelScans(g.capacity, theirs, now);
  }

  lemma {:induction false} GreedyPotential(g: Gauge, calls: seq<real>, rival: seq<bool>)
    requires Tracks(g, []) && From(g.last, calls) && Sorted(calls) && |rival| == |calls|
    requires WindowBound(g.capacity, Admitted(calls, rival))
    ensures Ahead(g.capacity, Admitted(calls, RunGauge(g, calls).1), Admitted(calls, rival), RunGauge(g, calls).0.last)
  {
    if calls != [] {
      var n := |calls| - 1;
      var early, late := calls[..n], calls[n];
      var (before, answers) := RunGauge(g, early);
      assert RunGauge(g, calls).1[..n] == answers;
      var mine, theirs := Admitted(early, answers), Admitted(early, rival[..n]);
      BoundExtends(g.capacity, theirs, late);
      GreedyPotential(g, early, rival[..n]);
      RunTracks(g, early);
      StaysAhead(before, mine, theirs, late, rival[n]);
    }
  }

  lemma {:induction false} RunPrefix(g: Gauge, calls: seq<real>, k: nat)
    requires k <= |calls|
    ensures RunGauge(g, calls[..k]).1 == RunGauge(g, calls).1[..k]
  {
    if k < |calls| {
      var n := |calls| - 1;
      RunPrefix(g, calls[..n], k);
      assert calls[..n][..k] == calls[..k];
      assert RunGauge(g, calls).1[..k] == RunGauge(g, calls[..n]).1[..k];
    } else {
      assert calls[..k] == calls;
    }
  }

  lemma {:induction false} BoundPrefix(capacity: real, calls: seq<real>, answers: seq<bool>, k: nat)
    requires |calls| == |answers| && k <= |calls| && capacity >= 1.0
    requires WindowBound(capacity, Admitted(calls, answers))
    ensures WindowBound(capacity, Admitted(calls[..k], answers[..k]))
  {
    if k < |calls| {
      var n := |calls| - 1;
      var early := Admitted(calls[..n], answers[..n]);
      BoundExtends(capacity, early, calls[n]);
      assert answers[n] || Admitted(calls, answers) == early;
      BoundPrefix(capacity, calls[..n], answers[..n], k);
      assert calls[..n][..k] == calls[..k] && answers[..n][..k] == answers[..k];
    } else {
      assert calls[..k] == calls && answers[..k] == answers;
    }
  }

  // ----- Windows

  /** How many of `times` fall in the closed window from `from` to `to`. */
  ghost function CountIn(times: seq<real>, from: real, to: real): nat {
    if times == [] then 0
    else (if from <= times[0] <= to then 1 else 0) + CountIn(times[1..], from, to)
  }

  lemma {:induction false} CountUpTo(times: seq<real>, from: real, to: real)
    requires From(from, times) && Sorted(times)
    ensures var n := CountIn(times, from, to);
            n <= |times| && (n > 0 ==> times[n - 1] <= to)
  {
    if times != [] {
      CountUpTo(times[1..], from, to);
      if times[0] > to && CountIn(times[1..], from, to) > 0 {
        assert times[0] <= times[1];
      }
    }
  }

  /** Sorted times under the pairwise bound crowd no window at all. */
  lemma {:induction false} WindowHolds(capacity: real, times: seq<real>, from: real, to: real)
    requires capacity >= 0.0 && from <= to && Sorted(times) && WindowBound(capacity, times)
    ensures CountIn(times, from, to) as real <= capacity + to - from
  {
    if times != [] {
      if times[0] < from {
        var rest := times[1..];
        forall i, j | 0 <= i <= j < |rest| ensures (j - i + 1) as real <= capacity + rest[j] - rest[i] {
          assert ((j + 1) - (i + 1) + 1) as real <= capacity + times[j + 1] - times[i + 1];
        }
        WindowHolds(capacity, rest, from, to);
      } else {
        CountUpTo(times, from, to);
        var n := CountIn(times, from, to);
        if n > 0 {
          assert ((n - 1) - 0 + 1) as real <= capacity + times[n - 1] - times[0];
        }
      }
    }
  }

  lemma {:induction false} AdmittedSorted(calls: seq<real>, answers: seq<bool>)
    requires |calls| == |answers| && Sorted(calls)
    ensures Sorted(Admitted(calls, answers))
    ensures forall i | 0 <= i < |Admitted(calls, answers)| :: Admitted(calls, answers)[i] <= calls[|calls| - 1]
  {
    if calls != [] {
      var n := |calls| - 1;
      AdmittedSorted(calls[..n], answers[..n]);
      var early := Admitted(calls[..n], answers[..n]);
      assert forall i | 0 <= i < |early| :: early[i] <= calls[n - 1] <= calls[n];
    }
  }

  // ----- From the unit rate to every rate

  /** The clock in tokens: a bucket that earns `rate` tokens a second has earned `rate * t` by time `t`. */
  ghost function Earning(rate: real): real -> real {
    t => rate * t
  }

  ghost function Map(clock: real -> real, times: seq<real>): (r: seq<real>)
    ensures |r| == |times|
    ensures forall i | 0 <= i < |times| :: r[i] == clock(times[i])
  {
    seq(|times|, i requires 0 <= i < |times| => clock(times[i]))
  }

  ghost predicate Increasing(clock: real -> real) {
    forall x, y :: x <= y <==> clock(x) <= clock(y)
  }

  lemma EarningIncreases(rate: real)
    requires rate > 0.0
    ensures Increasing(Earning(rate))
  {
    forall x, y ensures x <= y <==> Earning(rate)(x) <= Earning(rate)(y) {
      assert rate * y - rate * x == rate * (y - x);
    }
  }

  lemma {:induction false} AdmittedOnClock(clock: real -> real, calls: seq<real>, answers: seq<bool>)
    requires |calls| == |answers|
    ensures Map(clock, Admitted(calls, answers)) == Admitted(Map(clock, calls), answers)
  {
    if calls != [] {
      var n := |calls| - 1;
      AdmittedOnClock(clock, calls[..n], answers[..n]);
      assert Map(clock, calls)[..n] == Map(clock, calls[..n]);
      var early := Admitted(calls[..n], answers[..n]);
      assert Map(clock, early + [calls[n]]) == Map(clock, early) + [clock(calls[n])];
    }
  }

  lemma {:induction false} CountOnClock(clock: real -> real, times: seq<real>, from: real, to: real)
    requires Increasing(clock)
    ensures CountIn(Map(clock, times), clock(from), clock(to)) == CountIn(times, from, to)
  {
    if times != [] {
      CountOnClock(clock, times[1..], from, to);
      assert Map(clock, times)[1..] == Map(clock, times[1..]);
    }
  }

  lemma EarnedSince(rate: real, earlier: real, now: real)
    ensures TokensToAdd(now - earlier, rate) == Earning(rate)(now) - Earning(rate)(earlier)
  {
  }

  lemma RoomIsTokens(b: Bucket, now: real)
    ensures b.TokensAt(now) == Room(b.ToGauge(), Earning(b.rate)(now))
  {
    EarnedSince(b.rate, b.lastRefill, now);
  }

  /** A call on a bucket is a call on its gauge. */
  lemma ConsumeIsDraw(b: Bucket, now: real)
    ensures Consume(b, now).0.ToGauge() == Draw(b.ToGauge(), Earning(b.rate)(now)).0
    ensures Consume(b, now).1 == Draw(b.ToGauge(), Earning(b.rate)(now)).1
    ensures Consume(b, now).0.rate == b.rate
  {
    RoomIsTokens(b, now);
  }

  /** What the bucket answers to a sequence of calls. */
  ghost function RunBucket(b: Bucket, calls: seq<real>): (r: (Bucket, seq<bool>))
    ensures |r.1| == |calls|
  {
    if calls == [] then (b, [])
    else
      var n := |calls| - 1;
      var before := RunBucket(b, calls[..n]);
      var last := Consume(before.0, calls[n]);
      (last.0, before.1 + [last.1])
  }

  lemma {:induction false} RunBucketIsRunGauge(b: Bucket, calls: seq<real>)
    ensures RunBucket(b, calls).0.ToGauge() == RunGauge(b.ToGauge(), Map(Earning(b.rate), calls)).0
    ensures RunBucket(b, calls).1 == RunGauge(b.ToGauge(), Map(Earning(b.rate), calls)).1
    ensures RunBucket(b, calls).0.rate == b.rate
  {
    if calls != [] {
      var n := |calls| - 1;
      RunBucketIsRunGauge(b, calls[..n]);
      ConsumeIsDraw(RunBucket(b, calls[..n]).0, calls[n]);
      assert Map(Earning(b.rate), calls)[..n] == Map(Earning(b.rate), calls[..n]);
    }
  }

  ghost predicate Starts(g: Gauge, calls: seq<real>) {
    Tracks(g, []) && From(g.last, calls) && Sorted(calls)
  }

  lemma NewBucketStarts(b: Bucket, calls: seq<real>)
    requires b.Valid() && b.tokens == b.capacity
    requires From(b.lastRefill, calls) && Sorted(calls)
    ensures Starts(b.ToGauge(), Map(Earning(b.rate), calls))
  {
    EarningIncreases(b.rate);
    assert b.ToGauge().last == Earning(b.rate)(b.lastRefill);
  }

  /** A new bucket and the history scan give the same answers to every sequence of calls. */
  lemma BucketIsHistoryScan(refillPerSecond: real, burst: real, start: real, calls: seq<real>)
    requires From(start, calls) && Sorted(calls)
    ensures RunBucket(NewBucket(refillPerSecond, burst, start), calls).1
         == ScanRun(MaxReal(burst, 1.0), Map(Earning(MaxReal(refillPerSecond, 1.0)), calls))
  {
    var b := NewBucket(refillPerSecond, burst, start);
    NewBucketStarts(b, calls);
    RunBucketIsRunGauge(b, calls);
    RunTracks(b.ToGauge(), Map(Earning(b.rate), calls));
  }

  /** The scan with its times in seconds. */
  lemma FitsInSeconds(capacity: real, rate: real, admitted: seq<real>, now: real)
    ensures Fits(capacity, Map(Earning(rate), admitted), Earning(rate)(now))
       <==> forall i | 0 <= i < |admitted| ::
              (|admitted| - i + 1) as real <= capacity + rate * (now - admitted[i])
  {
    forall i | 0 <= i < |admitted|
      ensures rate * now - Map(Earning(rate), admitted)[i] == rate * (now - admitted[i])
    {
    }
  }

  lemma AdmissionsInClockWindow(g: Gauge, calls: seq<real>, from: real, to: real)
    requires Starts(g, calls) && from <= to
    ensures CountIn(Admitted(calls, RunGauge(g, calls).1), from, to) as real <= g.capacity + to - from
  {
    RunTracks(g, calls);
    AdmittedSorted(calls, RunGauge(g, calls).1);
    WindowHolds(g.capacity, Admitted(calls, RunGauge(g, calls).1), from, to);
  }

  lemma WindowOnClock(g: Gauge, clock: real -> real, calls: seq<real>, from: real, to: real)
    requires Increasing(clock) && Starts(g, Map(clock, calls)) && from <= to
    ensures CountIn(Admitted(calls, RunGauge(g, Map(clock, calls)).1), from, to) as real
         <= g.capacity + clock(to) - clock(from)
  {
    var answers := RunGauge(g, Map(clock, calls)).1;
    AdmissionsInClockWindow(g, Map(clock, calls), clock(from), clock(to));
    AdmittedOnClock(clock, calls, answers);
    CountOnClock(clock, Admitted(calls, answers), from, to);
  }

  lemma WindowInEarnings(b: Bucket, clock: real -> real, calls: seq<real>, from: real, to: real)
    requires b.Valid() && b.tokens == b.capacity && clock == Earning(b.rate)
    requires From(b.lastRefill, calls) && Sorted(calls) && from <= to
    ensures CountIn(Admitted(calls, RunBucket(b, calls).1), from, to) as real
         <= b.capacity + clock(to) - clock(from)
  {
    NewBucketStarts(b, calls);
    RunBucketIsRunGauge(b, calls);
    assert Increasing(clock) by {
      EarningIncreases(b.rate);
    }
    WindowOnClock(b.ToGauge(), clock, calls, from, to);
  }

  lemma WindowInSeconds(count: real, capacity: real, rate: real, from: real, to: real)
    requires count <= capacity + Earning(rate)(to) - Earning(rate)(from)
    ensures count <= capacity + rate * (to - from)
  {
  }

  /** No window of time has more than `burst` and what `rate` earns over it. */
  ghost predicate WithinBudget(times: seq<real>, burst: real, rate: real) {
    forall from, to | from <= to :: CountIn(times, from, to) as real <= burst + rate * (to - from)
  }

  lemma EarnedIsBudget(times: seq<real>, burst: real, rate: real)
    requires forall from, to | from <= to ::
               CountIn(times, from, to) as real <= burst + Earning(rate)(to) - Earning(rate)(from)
    ensures WithinBudget(times, burst, rate)
  {
    forall from, to | from <= to ensures CountIn(times, from, to) as real <= burst + rate * (to - from) {
      WindowInSeconds(CountIn(times, from, to) as real, burst, rate, from, to);
    }
  }

  /** The sliding-window promise of the bucket, for every run and every window, in seconds. */
  lemma AdmissionsInWindow(b: Bucket, calls: seq<real>)
    requires b.Valid() && b.tokens == b.capacity
    requires From(b.lastRefill, calls) && Sorted(calls)
    ensures WithinBudget(Admitted(calls, RunBucket(b, calls).1), b.capacity, b.rate)
  {
    var admitted := Admitted(calls, RunBucket(b, calls).1);
    forall from, to | from <= to
      ensures CountIn(admitted, from, to) as real <= b.capacity + Earning(b.rate)(to) - Earning(b.rate)(from)
    {
      WindowInEarnings(b, Earning(b.rate), calls, from, to);
    }
    EarnedIsBudget(admitted, b.capacity, b.rate);
  }

  lemma GreedyOnClock(g: Gauge, calls: seq<real>, rival: seq<bool>, k: nat)
    requires Starts(g, calls) && |rival| == |calls| && k <= |calls|
    requires WindowBound(g.capacity, Admitted(calls, rival))
    ensures |Admitted(calls[..k], rival[..k])| <= |Admitted(calls[..k], RunGauge(g, calls).1[..k])|
  {
    BoundPrefix(g.capacity, calls, rival, k);
    RunPrefix(g, calls, k);
    GreedyPotential(g, calls[..k], rival[..k]);
  }

  /** No other choice among the same arrivals that respects the window bound is ahead of the bucket after
      any prefix. */
  lemma GreedyIsOptimal(b: Bucket, calls: seq<real>, rival: seq<bool>, k: nat)
    requires b.Valid() && b.tokens == b.capacity
    requires From(b.lastRefill, calls) && Sorted(calls) && |rival| == |calls| && k <= |calls|
    requires WindowBound(b.capacity, Map(Earning(b.rate), Admitted(calls, rival)))
    ensures |Admitted(calls[..k], rival[..k])| <= |Admitted(calls[..k], RunBucket(b, calls).1[..k])|
  {
    var clock, answers := Earning(b.rate), RunBucket(b, calls).1;
    NewBucketStarts(b, calls);
    RunBucketIsRunGauge(b, calls);
    AdmittedOnClock(clock, calls, rival);
    GreedyOnClock(b.ToGauge(), Map(clock, calls), rival, k);
    assert Map(clock, calls)[..k] == Map(clock, calls[..k]);
    AdmittedOnClock(clock, calls[..k], rival[..k]);
    AdmittedOnClock(clock, calls[..k], answers[..k]);
  }
}
