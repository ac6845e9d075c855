/** The per-IP admission of src/ip_limiter.rs: a token bucket and a concurrency count per address, permits
    that give their slot back when dropped, and a lazy reaper that forgets idle addresses.

    `Decide`, `Forget` and `GiveBack` are the three critical sections, each held under one map guard. */
module IpLimiters {
  import opened Options
  import opened TokenBuckets

  const IDLE_TTL := 300.0
  const MAX_VICTIMS: nat := 64

  datatype IpAddr = V4(bits: nat) | V6(bits: nat)

  datatype Limits = Limits(maxConcurrent: Option<nat>, rateConfigured: bool, refillPerSecond: real, burst: real) {
    function Capacity(): real {
      MaxReal(burst, 1.0)
    }

    function Rate(): real {
      MaxReal(refillPerSecond, 1.0)
    }
  }

  datatype IpState = IpState(concurrent: nat, bucket: Bucket, lastSeen: real)

  datatype Verdict = Granted | RateLimited | ConcurrencyLimited

  function FromConfig(ipMaxConcurrent: Option<nat>, ipConnectionRate: Option<nat>,
                      ipRateBurst: Option<nat>): Option<Limits>
  {
    if ipMaxConcurrent.None? && ipConnectionRate.None? then None
    else
      var rate := if ipConnectionRate.Some? then ipConnectionRate.value as real else 1.0;
      var burst :=
        if ipRateBurst.Some? then ipRateBurst.value as real
        else if ipConnectionRate.Some? then MaxReal(rate, 1.0)
        else 1.0;
      Some(Limits(ipMaxConcurrent, ipConnectionRate.Some?, rate, burst))
  }

  predicate Stale(state: IpState, now: real) {
    state.concurrent == 0 && now - state.lastSeen > IDLE_TTL
  }

  function FreshState(limits: Limits, now: real): IpState {
    IpState(0, NewBucket(limits.refillPerSecond, limits.burst, now), now)
  }

  /** One attempt on an address: the entry afterwards and the verdict. */
  function DecideEntry(limits: Limits, entry: Option<IpState>, now: real): (IpState, Verdict) {
    var state := if entry.Some? then entry.value else FreshState(limits, now);
    var (bucket, inRate) := if limits.rateConfigured then Consume(state.bucket, now) else (state.bucket, true);
    var charged := state.(bucket := bucket);
    if !inRate then (charged, RateLimited)
    else if limits.maxConcurrent.Some? && charged.concurrent >= limits.maxConcurrent.value then
      (charged, ConcurrencyLimited)
    else (charged.(concurrent := charged.concurrent + 1, lastSeen := now), Granted)
  }

  /** An entry is stale when it is idle and was last seen more than five minutes ago. */
  lemma StaleExactly(state: IpState, now: real)
    ensures Stale(state, now) <==> state.concurrent == 0 && now > state.lastSeen + 5.0 * 60.0
  {
  }

  /** The verdicts, by what the entry has to spare, and what a grant does to it. */
  lemma VerdictExactly(limits: Limits, state: IpState, now: real)
    ensures var (after, verdict) := DecideEntry(limits, Some(state), now);
            && (verdict == RateLimited <==> limits.rateConfigured && state.bucket.TokensAt(now) < 1.0)
            && (verdict == ConcurrencyLimited <==>
                  && verdict != RateLimited && limits.maxConcurrent.Some?
                  && state.concurrent >= limits.maxConcurrent.value)
            && (verdict == Granted ==>
                  && after.concurrent == state.concurrent + 1 && after.lastSeen == now
                  && (if limits.rateConfigured
                      then after.bucket.tokens == state.bucket.TokensAt(now) - 1.0 && after.bucket.lastRefill == now
                      else after.bucket == state.bucket))
    ensures DecideEntry(limits, None, now) == DecideEntry(limits, Some(FreshState(limits, now)), now)
  {
  }

  /** An attempt refused for its rate changes no later answer and no later entry. */
  lemma RateRefusalLeavesNoTrace(limits: Limits, entry: IpState, at: real, later: real)
    requires entry.bucket.lastRefill <= at <= later && entry.bucket.rate > 0.0
    requires DecideEntry(limits, Some(entry), at).1 == RateLimited
    ensures var after := DecideEntry(limits, Some(entry), at).0;
            DecideEntry(limits, Some(after), later) == DecideEntry(limits, Some(entry), later)
  {
    RefillTwice(entry.bucket, at, later);
  }

  lemma EarnsOn(rate: real, start: real, mid: real, end: real)
    requires mid <= end && rate > 0.0
    ensures TokensToAdd(end - start, rate) == TokensToAdd(mid - start, rate) + TokensToAdd(end - mid, rate)
    ensures TokensToAdd(end - mid, rate) >= 0.0
  {
  }

  lemma CappedTwice(tokens: real, first: real, second: real, capacity: real)
    requires second >= 0.0
    ensures MinReal(MinReal(tokens + first, capacity) + second, capacity)
         == MinReal(tokens + (first + second), capacity)
  {
  }

  lemma RefillTwice(b: Bucket, at: real, later: real)
    requires b.lastRefill <= at <= later && b.rate > 0.0
    ensures Refill(Refill(b, at), later) == Refill(b, later)
  {
    EarnsOn(b.rate, b.lastRefill, at, later);
    CappedTwice(b.tokens, TokensToAdd(at - b.lastRefill, b.rate), TokensToAdd(later - at, b.rate), b.capacity);
  }

  /** An attempt refused for its concurrency has spent a token, if there is a rate, of the entry it found or, where
      the cap is 0, of the one it made; it has changed nothing else. */
  lemma ConcurrencyRefusalCosts(limits: Limits, entry: Option<IpState>, at: real)
    requires DecideEntry(limits, entry, at).1 == ConcurrencyLimited
    ensures var before := if entry.Some? then entry.value else FreshState(limits, at);
            var after := DecideEntry(limits, entry, at).0;
            && after.concurrent == before.concurrent && after.lastSeen == before.lastSeen
            && (if limits.rateConfigured then after.bucket.tokens == before.bucket.TokensAt(at) - 1.0 >= 0.0
                else after == before)
    ensures limits.maxConcurrent.Some?
    ensures (if entry.Some? then entry.value.concurrent else 0) >= limits.maxConcurrent.value
    ensures entry.None? ==> limits.maxConcurrent == Some(0)
  {
  }

  function Lookup(states: map<IpAddr, IpState>, ip: IpAddr): Option<IpState> {
    if ip in states then Some(states[ip]) else None
  }

  function Decide(limits: Limits, states: map<IpAddr, IpState>, ip: IpAddr, now: real)
    : (map<IpAddr, IpState>, Verdict)
  {
    var (entry, verdict) := DecideEntry(limits, Lookup(states, ip), now);
    (states[ip := entry], verdict)
  }

  /** The reaper's conditional removal; `scannedAt` is when the scan began. */
  function Forget(states: map<IpAddr, IpState>, ip: IpAddr, scannedAt: real): map<IpAddr, IpState> {
    if ip in states && Stale(states[ip], scannedAt) then states - {ip} else states
  }

  function Released(state: IpState, now: real): IpState {
    state.(concurrent := if state.concurrent > 0 then state.concurrent - 1 else 0, lastSeen := now)
  }

  function GiveBack(states: map<IpAddr, IpState>, ip: IpAddr, now: real): map<IpAddr, IpState> {
    if ip in states then states[ip := Released(states[ip], now)] else states
  }

  // ----- The limiter as many threads see it

  /** A thread between the start of its reap and its own attempt. */
  datatype Reaper = Reaper(scannedAt: real, victims: seq<IpAddr>, scanning: bool)

  /** `live` holds one element for every permit not yet dropped. */
  datatype Limiter = Limiter(states: map<IpAddr, IpState>, live: multiset<IpAddr>, reapers: map<nat, Reaper>,
                             clock: real)

  datatype Event =
    | BeginReap(thread: nat, at: real)
    | Collect(thread: nat, ip: IpAddr)
    | RemoveNext(thread: nat)
    | Attempt(thread: nat, ip: IpAddr, at: real)
    | Release(ip: IpAddr, at: real)

  predicate Enabled(s: Limiter, e: Event) {
    match e
    case BeginReap(thread, at) => thread !in s.reapers && s.clock <= at
    case Collect(thread, ip) =>
      && thread in s.reapers && s.reapers[thread].scanning
      && |s.reapers[thread].victims| < MAX_VICTIMS && ip !in s.reapers[thread].victims
      && ip in s.states && Stale(s.states[ip], s.reapers[thread].scannedAt)
    case RemoveNext(thread) => thread in s.reapers && s.reapers[thread].victims != []
    case Attempt(thread, ip, at) => thread in s.reapers && s.reapers[thread].victims == [] && s.clock <= at
    case Release(ip, at) => ip in s.live && s.clock <= at
  }

  function Apply(limits: Limits, s: Limiter, e: Event): Limiter
    requires Enabled(s, e)
  {
    match e
    case BeginReap(thread, at) => s.(reapers := s.reapers[thread := Reaper(at, [], true)], clock := at)
    case Collect(thread, ip) =>
      var r := s.reapers[thread];
      s.(reapers := s.reapers[thread := r.(victims := r.victims + [ip])])
    case RemoveNext(thread) =>
      var r := s.reapers[thread];
      s.(states := Forget(s.states, r.victims[0], r.scannedAt),
         reapers := s.reapers[thread := r.(victims := r.victims[1..], scanning := false)])
    case Attempt(thread, ip, at) =>
      var (states, verdict) := Decide(limits, s.states, ip, at);
      Limiter(states, if verdict == Granted then s.live + multiset{ip} else s.live, s.reapers - {thread}, at)
    case Release(ip, at) => DropPermit(s, ip, at)
  }

  function DropPermit(s: Limiter, ip: IpAddr, at: real): Limiter {
    s.(states := GiveBack(s.states, ip, at), live := s.live - multiset{ip}, clock := at)
  }

  const IDLE := Limiter(map[], multiset{}, map[], 0.0)

  /** Where a run of interleaved steps leads; `None` if some step was not possible when its turn came. */
  ghost function Run(limits: Limits, es: seq<Event>): Option<Limiter> {
    if es == [] then Some(IDLE)
    else
      var before := Run(limits, es[..|es| - 1]);
      var e := es[|es| - 1];
      if before.Some? && Enabled(before.value, e) then Some(Apply(limits, before.value, e)) else None
  }

  // ----- Permit conservation

  ghost predicate EntryConserved(limits: Limits, entry: Option<IpState>, live: nat, clock: real) {
    && live == (if entry.Some? then entry.value.concurrent else 0)
    && (entry.Some? ==> entry.value.lastSeen <= clock)
    && (limits.maxConcurrent.Some? ==> live <= limits.maxConcurrent.value)
  }

  ghost predicate Conserved(limits: Limits, s: Limiter) {
    && (forall ip :: EntryConserved(limits, Lookup(s.states, ip), s.live[ip], s.clock))
    && (forall thread | thread in s.reapers :: s.reapers[thread].scannedAt <= s.clock)
  }

  lemma AttemptConserves(limits: Limits, entry: Option<IpState>, live: nat, clock: real, at: real)
    requires EntryConserved(limits, entry, live, clock) && clock <= at
    ensures var (after, verdict) := DecideEntry(limits, entry, at);
            EntryConserved(limits, Some(after), live + (if verdict == Granted then 1 else 0), at)
  {
  }

  lemma StepConservesEntry(limits: Limits, s: Limiter, e: Event, ip: IpAddr)
    requires EntryConserved(limits, Lookup(s.states, ip), s.live[ip], s.clock) && Enabled(s, e)
    requires e.RemoveNext? ==> s.reapers[e.thread].scannedAt <= s.clock
    ensures var s' := Apply(limits, s, e); EntryConserved(limits, Lookup(s'.states, ip), s'.live[ip], s'.clock)
  {
    if e.Attempt? && e.ip == ip {
      AttemptConserves(limits, Lookup(s.states, ip), s.live[ip], s.clock, e.at);
    }
  }

  lemma StepConserves(limits: Limits, s: Limiter, e: Event)
    requires Conserved(limits, s) && Enabled(s, e)
    ensures Conserved(limits, Apply(limits, s, e))
  {
    var s' := Apply(limits, s, e);
    forall ip ensures EntryConserved(limits, Lookup(s'.states, ip), s'.live[ip], s'.clock) {
      StepConservesEntry(limits, s, e, ip);
    }
  }

  /** In every reachable state each address counts exactly its live permits, within the cap. */
  lemma {:induction false} PermitsConserved(limits: Limits, es: seq<Event>)
    requires Run(limits, es).Some?
    ensures Conserved(limits, Run(limits, es).value)
  {
    if es != [] {
      PermitsConserved(limits, es[..|es| - 1]);
      StepConserves(limits, Run(limits, es[..|es| - 1]).value, es[|es| - 1]);
    }
  }

  /** So a dropped permit always finds its entry with a count to take down, and the reaper never removes
      an entry that some permit still refers to. */
  lemma GuardsNeverFire(limits: Limits, es: seq<Event>, ip: IpAddr, thread: nat)
    requires Run(limits, es).Some? && ip in Run(limits, es).value.live
    ensures var s := Run(limits, es).value;
            && ip in s.states && s.states[ip].concurrent > 0
            && (Enabled(s, RemoveNext(thread)) ==> ip in Apply(limits, s, RemoveNext(thread)).states)
  {
    PermitsConserved(limits, es);
    var s := Run(limits, es).value;
    assert EntryConserved(limits, Lookup(s.states, ip), s.live[ip], s.clock);
  }

  // ----- Reaping is invisible

  /** What a step does to a limiter that never forgets an address. */
  function KeepingStep(limits: Limits, kept: map<IpAddr, IpState>, e: Event): map<IpAddr, IpState> {
    match e
    case Attempt(_, ip, at) => Decide(limits, kept, ip, at).0
    case Release(ip, at) => GiveBack(kept, ip, at)
    case _ => kept
  }

  ghost function Unreaped(limits: Limits, es: seq<Event>): map<IpAddr, IpState> {
    if es == [] then map[] else KeepingStep(limits, Unreaped(limits, es[..|es| - 1]), es[|es| - 1])
  }

  ghost predicate Attempts(limits: Limits, es: seq<Event>, thread: nat, ip: IpAddr, at: real) {
    Run(limits, es).Some? && Enabled(Run(limits, es).value, Attempt(thread, ip, at))
  }

  ghost function VerdictAfter(limits: Limits, es: seq<Event>, ip: IpAddr, at: real): Verdict
    requires Run(limits, es).Some?
  {
    Decide(limits, Run(limits, es).value.states, ip, at).1
  }

  ghost function UnreapedVerdict(limits: Limits, es: seq<Event>, ip: IpAddr, at: real): Verdict {
    Decide(limits, Unreaped(limits, es), ip, at).1
  }

  /** Every attempt of every run gets the verdict it would get without the reaper. */
  ghost predicate Invisible(limits: Limits) {
    forall es: seq<Event>, thread, ip, at | Attempts(limits, es, thread, ip, at) ::
      VerdictAfter(limits, es, ip, at) == UnreapedVerdict(limits, es, ip, at)
  }

  /** The weaker promise: the same attempts are granted, though a refusal may name another reason. */
  ghost predicate GrantsAgree(limits: Limits) {
    forall es: seq<Event>, thread, ip, at | Attempts(limits, es, thread, ip, at) ::
      VerdictAfter(limits, es, ip, at).Granted? == UnreapedVerdict(limits, es, ip, at).Granted?
  }

  predicate TtlRefills(limits: Limits) {
    !limits.rateConfigured || limits.Capacity() <= IDLE_TTL * limits.Rate()
  }

  predicate CanAdmit(limits: Limits) {
    !limits.rateConfigured || limits.maxConcurrent != Some(0)
  }

  ghost predicate GoodBucket(limits: Limits, b: Bucket) {
    && b.Valid() && b.capacity == limits.Capacity() && b.rate == limits.Rate()
    && (!limits.rateConfigured ==> b.tokens == b.capacity)
  }

  /** The room an entry has when the tokens clock shows `u`; an absent one would be created full. */
  ghost function RoomOf(limits: Limits, entry: Option<IpState>, u: real): real {
    if entry.Some? then Room(entry.value.bucket.ToGauge(), u) else limits.Capacity()
  }

  /** What the reaped entry knows of the entry that was never reaped, at tokens time `u`. An idle entry has
      earned back at least what the time since it was last seen is worth. */
  ghost predicate Mirrors(limits: Limits, reaped: Option<IpState>, kept: Option<IpState>, clock: real -> real,
                          u: real)
  {
    && (reaped.Some? ==> kept.Some?)
    && (kept.Some? ==> GoodBucket(limits, kept.value.bucket) && kept.value.bucket.ToGauge().last <= u)
    && (reaped.Some? ==> GoodBucket(limits, reaped.value.bucket) && reaped.value.bucket.ToGauge().last <= u)
    && (if kept.Some? then kept.value.concurrent else 0) == (if reaped.Some? then reaped.value.concurrent else 0)
    && RoomOf(limits, reaped, u) == RoomOf(limits, kept, u)
    && (reaped.Some? && reaped.value.concurrent == 0 ==>
          RoomOf(limits, reaped, u) >= MinReal(limits.Capacity(), u - clock(reaped.value.lastSeen)))
  }

  lemma MirrorsLater(limits: Limits, reaped: Option<IpState>, kept: Option<IpState>, clock: real -> real, u: real,
                     v: real)
    requires Mirrors(limits, reaped, kept, clock, u) && u <= v
    ensures Mirrors(limits, reaped, kept, clock, v)
  {
  }

  lemma MirrorsDecide(limits: Limits, reaped: Option<IpState>, kept: Option<IpState>, now: real)
    requires CanAdmit(limits)
    requires Mirrors(limits, reaped, kept, Earning(limits.Rate()), Earning(limits.Rate())(now))
    ensures var (reaped', verdict) := DecideEntry(limits, reaped, now);
            var (kept', verdict') := DecideEntry(limits, kept, now);
            && verdict == verdict'
            && Mirrors(limits, Some(reaped'), Some(kept'), Earning(limits.Rate()), Earning(limits.Rate())(now))
  {
    if reaped.Some? { ConsumeIsDraw(reaped.value.bucket, now); }
    if kept.Some? { ConsumeIsDraw(kept.value.bucket, now); }
    ConsumeIsDraw(NewBucket(limits.refillPerSecond, limits.burst, now), now);
  }

  lemma MirrorsReleased(limits: Limits, reaped: IpState, kept: IpState, clock: real -> real, now: real)
    requires Mirrors(limits, Some(reaped), Some(kept), clock, clock(now))
    ensures Mirrors(limits, Some(Released(reaped, now)), Some(Released(kept, now)), clock, clock(now))
  {
  }

  /** By the time an idle entry may be forgotten its bucket is full again. */
  lemma MirrorsForgotten(limits: Limits, reaped: IpState, kept: IpState, scannedAt: real, now: real)
    requires TtlRefills(limits) && Stale(reaped, scannedAt) && scannedAt <= now
    requires Mirrors(limits, Some(reaped), Some(kept), Earning(limits.Rate()), Earning(limits.Rate())(now))
    ensures Mirrors(limits, None, Some(kept), Earning(limits.Rate()), Earning(limits.Rate())(now))
  {
    if limits.rateConfigured {
      assert limits.Rate() * now - limits.Rate() * reaped.lastSeen == limits.Rate() * (now - reaped.lastSeen);
      assert limits.Rate() * (now - reaped.lastSeen) >= limits.Rate() * IDLE_TTL;
    }
  }

  ghost predicate Mirror(limits: Limits, s: Limiter, kept: map<IpAddr, IpState>) {
    var clock := Earning(limits.Rate());
    forall ip :: Mirrors(limits, Lookup(s.states, ip), Lookup(kept, ip), clock, clock(s.clock))
  }

  lemma MirrorLater(limits: Limits, s: Limiter, kept: map<IpAddr, IpState>, at: real)
    requires Mirror(limits, s, kept) && s.clock <= at
    ensures Mirror(limits, s.(clock := at), kept)
  {
    var clock := Earning(limits.Rate());
    EarningIncreases(limits.Rate());
    forall ip ensures Mirrors(limits, Lookup(s.states, ip), Lookup(kept, ip), clock, clock(at)) {
      MirrorsLater(limits, Lookup(s.states, ip), Lookup(kept, ip), clock, clock(s.clock), clock(at));
    }
  }

  lemma StepMirrors(limits: Limits, s: Limiter, kept: map<IpAddr, IpState>, e: Event)
    requires TtlRefills(limits) && CanAdmit(limits)
    requires Mirror(limits, s, kept) && Conserved(limits, s) && Enabled(s, e)
    ensures Mirror(limits, Apply(limits, s, e), KeepingStep(limits, kept, e))
  {
    var s', kept' := Apply(limits, s, e), KeepingStep(limits, kept, e);
    var clock := Earning(limits.Rate());
    MirrorLater(limits, s, kept, s'.clock);
    forall ip ensures Mirrors(limits, Lookup(s'.states, ip), Lookup(kept', ip), clock, clock(s'.clock)) {
      var was, keptWas := Lookup(s.states, ip), Lookup(kept, ip);
      assert Mirrors(limits, was, keptWas, clock, clock(s'.clock));
      assert EntryConserved(limits, was, s.live[ip], s.clock);
      match e
      case RemoveNext(thread) =>
        if ip == s.reapers[thread].victims[0] && was.Some? && Stale(was.value, s.reapers[thread].scannedAt) {
          MirrorsForgotten(limits, was.value, keptWas.value, s.reapers[thread].scannedAt, s.clock);
        }
      case Attempt(thread, tried, at) =>
        if ip == tried {
          MirrorsDecide(limits, was, keptWas, at);
        }
      case Release(dropped, at) =>
        if ip == dropped {
          MirrorsReleased(limits, was.value, keptWas.value, clock, at);
        }
      case _ =>
    }
  }

  lemma {:induction false} RunMirrors(limits: Limits, es: seq<Event>)
    requires Run(limits, es).Some? && TtlRefills(limits) && CanAdmit(limits)
    ensures Mirror(limits, Run(limits, es).value, Unreaped(limits, es))
  {
    if es != [] {
      var before, e := es[..|es| - 1], es[|es| - 1];
      RunMirrors(limits, before);
      PermitsConserved(limits, before);
      StepMirrors(limits, Run(limits, before).value, Unreaped(limits, before), e);
    }
  }

  lemma InvisibleIf(limits: Limits)
    requires TtlRefills(limits) && CanAdmit(limits)
    ensures Invisible(limits)
  {
    forall es: seq<Event>, thread, ip, at | Attempts(limits, es, thread, ip, at)
      ensures VerdictAfter(limits, es, ip, at) == UnreapedVerdict(limits, es, ip, at)
    {
      RunMirrors(limits, es);
      var s, kept := Run(limits, es).value, Unreaped(limits, es);
      MirrorLater(limits, s, kept, at);
      MirrorsDecide(limits, Lookup(s.states, ip), Lookup(kept, ip), at);
    }
  }

  // ----- When reaping shows

  lemma RunExtends(limits: Limits, es: seq<Event>, e: Event)
    requires Run(limits, es).Some? && Enabled(Run(limits, es).value, e)
    ensures Run(limits, es + [e]) == Some(Apply(limits, Run(limits, es).value, e))
    ensures Unreaped(limits, es + [e]) == KeepingStep(limits, Unreaped(limits, es), e)
  {
    assert (es + [e])[..|es|] == es;
  }

  /** An idle address at time `at`: how much room its reaped and its kept entry have, and when the reaped
      one was last seen. */
  ghost predicate Poised(limits: Limits, reaped: Option<IpState>, kept: Option<IpState>, at: real,
                         room: real, keptRoom: real, seen: Option<real>)
  {
    && (reaped.Some? ==> reaped.value.concurrent == 0 && GoodBucket(limits, reaped.value.bucket))
    && (kept.Some? ==> kept.value.concurrent == 0 && GoodBucket(limits, kept.value.bucket))
    && RoomOf(limits, reaped, Earning(limits.Rate())(at)) == room
    && RoomOf(limits, kept, Earning(limits.Rate())(at)) == keptRoom
    && seen == (if reaped.Some? then Some(reaped.value.lastSeen) else None)
  }

  /** After `es` no thread is reaping and `ip`, with no permit out, is poised. */
  ghost predicate Reaches(limits: Limits, es: seq<Event>, ip: IpAddr, at: real,
                          room: real, keptRoom: real, seen: Option<real>)
  {
    && Run(limits, es).Some?
    && var s := Run(limits, es).value;
       && s.reapers == map[] && s.clock <= at && s.live[ip] == 0
       && Poised(limits, Lookup(s.states, ip), Lookup(Unreaped(limits, es), ip), at, room, keptRoom, seen)
  }

  lemma ChargeEntry(limits: Limits, entry: Option<IpState>, at: real)
    requires limits.rateConfigured
    requires entry.Some? ==> entry.value.concurrent == 0 && GoodBucket(limits, entry.value.bucket)
    ensures var room := RoomOf(limits, entry, Earning(limits.Rate())(at));
            var (after, verdict) := DecideEntry(limits, entry, at);
            && verdict == (if room < 1.0 then RateLimited else if CanAdmit(limits) then Granted else ConcurrencyLimited)
            && (room >= 1.0 ==>
                  && GoodBucket(limits, after.bucket)
                  && after.concurrent == (if CanAdmit(limits) then 1 else 0)
                  && after.lastSeen == (if CanAdmit(limits) || entry.None? then at else entry.value.lastSeen)
                  && RoomOf(limits, Some(after), Earning(limits.Rate())(at)) == room - 1.0)
  {
    ConsumeIsDraw((if entry.Some? then entry.value else FreshState(limits, at)).bucket, at);
  }

  lemma ChargePoised(limits: Limits, reaped: Option<IpState>, kept: Option<IpState>, at: real,
                     room: real, keptRoom: real, seen: Option<real>)
    requires limits.rateConfigured && room >= 1.0 && keptRoom >= 1.0
    requires Poised(limits, reaped, kept, at, room, keptRoom, seen)
    ensures var (reaped', verdict) := DecideEntry(limits, reaped, at);
            var (kept', _) := DecideEntry(limits, kept, at);
            && verdict == (if CanAdmit(limits) then Granted else ConcurrencyLimited)
            && Poised(limits,
                      Some(if CanAdmit(limits) then Released(reaped', at) else reaped'),
                      Some(if CanAdmit(limits) then Released(kept', at) else kept'),
                      at, room - 1.0, keptRoom - 1.0, SeenNext(limits, seen, at))
  {
    ChargeEntry(limits, reaped, at);
    ChargeEntry(limits, kept, at);
  }

  function SeenNext(limits: Limits, seen: Option<real>, at: real): Option<real> {
    if CanAdmit(limits) || seen.None? then Some(at) else seen
  }

  /** One thread attempts, and drops the permit if it got one, all at the same time. */
  function Round(limits: Limits, ip: IpAddr, at: real): seq<Event> {
    if CanAdmit(limits) then [BeginReap(0, at), Attempt(0, ip, at), Release(ip, at)]
    else [BeginReap(0, at), Attempt(0, ip, at)]
  }

  lemma RoundCharges(limits: Limits, es: seq<Event>, ip: IpAddr, at: real,
                     room: real, keptRoom: real, seen: Option<real>)
    requires limits.rateConfigured && room >= 1.0 && keptRoom >= 1.0
    requires Reaches(limits, es, ip, at, room, keptRoom, seen)
    ensures Reaches(limits, es + Round(limits, ip, at), ip, at, room - 1.0, keptRoom - 1.0,
                    SeenNext(limits, seen, at))
  {
    var s, kept := Run(limits, es).value, Unreaped(limits, es);
    ChargePoised(limits, Lookup(s.states, ip), Lookup(kept, ip), at, room, keptRoom, seen);
    SoloAttempt(limits, es, ip, at);
    var attempted := es + [BeginReap(0, at), Attempt(0, ip, at)];
    if CanAdmit(limits) {
      RunExtends(limits, attempted, Release(ip, at));
      assert es + Round(limits, ip, at) == attempted + [Release(ip, at)];
    }
  }

  lemma SoloAttempt(limits: Limits, es: seq<Event>, ip: IpAddr, at: real)
    requires Run(limits, es).Some? && Run(limits, es).value.reapers == map[] && Run(limits, es).value.clock <= at
    ensures var s := Run(limits, es).value;
            var attempted := es + [BeginReap(0, at), Attempt(0, ip, at)];
            var (states, verdict) := Decide(limits, s.states, ip, at);
            && Run(limits, attempted)
               == Some(Limiter(states, if verdict == Granted then s.live + multiset{ip} else s.live, map[], at))
            && Unreaped(limits, attempted) == Decide(limits, Unreaped(limits, es), ip, at).0
  {
    RunExtends(limits, es, BeginReap(0, at));
    var begun := es + [BeginReap(0, at)];
    RunExtends(limits, begun, Attempt(0, ip, at));
    assert begun + [Attempt(0, ip, at)] == es + [BeginReap(0, at), Attempt(0, ip, at)];
    assert Apply(limits, Run(limits, begun).value, Attempt(0, ip, at)).reapers == map[];
  }

  function Rounds(limits: Limits, ip: IpAddr, at: real, k: nat): seq<Event> {
    if k == 0 then [] else Rounds(limits, ip, at, k - 1) + Round(limits, ip, at)
  }

  /** `k` rounds at one time cost `k` tokens; the address was last seen in the first of them. */
  ghost predicate ReachesBy(limits: Limits, es: seq<Event>, ip: IpAddr, at: real,
                            room: real, keptRoom: real, seen: Option<real>, k: nat)
  {
    Reaches(limits, es, ip, at, room - k as real, keptRoom - k as real,
            if k > 0 then SeenNext(limits, seen, at) else seen)
  }

  lemma {:induction false} RoundsCharge(limits: Limits, es: seq<Event>, ip: IpAddr, at: real,
                                        room: real, keptRoom: real, seen: Option<real>, k: nat)
    requires limits.rateConfigured && room >= k as real && keptRoom >= k as real
    requires Reaches(limits, es, ip, at, room, keptRoom, seen)
    ensures ReachesBy(limits, es + Rounds(limits, ip, at, k), ip, at, room, keptRoom, seen, k)
    decreases k
  {
    if k == 0 {
      NoRoundCharges(limits, es, ip, at, room, keptRoom, seen);
    } else {
      RoundsCharge(limits, es, ip, at, room, keptRoom, seen, k - 1);
      LastRoundCharges(limits, es, ip, at, room, keptRoom, seen, k - 1);
    }
  }

  lemma NoRoundCharges(limits: Limits, es: seq<Event>, ip: IpAddr, at: real,
                       room: real, keptRoom: real, seen: Option<real>)
    requires Reaches(limits, es, ip, at, room, keptRoom, seen)
    ensures ReachesBy(limits, es + Rounds(limits, ip, at, 0), ip, at, room, keptRoom, seen, 0)
  {
    assert es + Rounds(limits, ip, at, 0) == es;
  }

  lemma LastRoundCharges(limits: Limits, es: seq<Event>, ip: IpAddr, at: real,
                         room: real, keptRoom: real, seen: Option<real>, k: nat)
    requires limits.rateConfigured && room >= (k + 1) as real && keptRoom >= (k + 1) as real
    requires ReachesBy(limits, es + Rounds(limits, ip, at, k), ip, at, room, keptRoom, seen, k)
    ensures ReachesBy(limits, es + Rounds(limits, ip, at, k + 1), ip, at, room, keptRoom, seen, k + 1)
  {
    var before, round := es + Rounds(limits, ip, at, k), Round(limits, ip, at);
    assert es + Rounds(limits, ip, at, k + 1) == before + round;
    var seenBefore := if k > 0 then SeenNext(limits, seen, at) else seen;
    RoundCharges(limits, before, ip, at, room - k as real, keptRoom - k as real, seenBefore);
    assert SeenNext(limits, seenBefore, at) == SeenNext(limits, seen, at);
  }

  lemma RoomLater(limits: Limits, entry: Option<IpState>, u: real, v: real)
    requires u <= v && (entry.Some? ==> GoodBucket(limits, entry.value.bucket))
    ensures RoomOf(limits, entry, v) == MinReal(RoomOf(limits, entry, u) + v - u, limits.Capacity())
  {
  }

  lemma ReachesLater(limits: Limits, es: seq<Event>, ip: IpAddr, at: real, later: real,
                     room: real, keptRoom: real, seen: Option<real>, earned: real)
    requires Reaches(limits, es, ip, at, room, keptRoom, seen) && at <= later
    requires earned == Earning(limits.Rate())(later) - Earning(limits.Rate())(at) >= 0.0
    ensures Reaches(limits, es, ip, later, MinReal(room + earned, limits.Capacity()),
                    MinReal(keptRoom + earned, limits.Capacity()), seen)
  {
    var reaped, kept := Lookup(Run(limits, es).value.states, ip), Lookup(Unreaped(limits, es), ip);
    RoomLater(limits, reaped, Earning(limits.Rate())(at), Earning(limits.Rate())(later));
    RoomLater(limits, kept, Earning(limits.Rate())(at), Earning(limits.Rate())(later));
  }

  /** A handshake from some other address reaps the idle entry on its way. */
  function ReapFor(ip: IpAddr, other: IpAddr, at: real): seq<Event> {
    [BeginReap(0, at), Collect(0, ip), RemoveNext(0), Attempt(0, other, at)]
  }

  lemma ReapForgets(limits: Limits, es: seq<Event>, ip: IpAddr, other: IpAddr, at: real,
                    room: real, keptRoom: real, seen: real)
    requires Reaches(limits, es, ip, at, room, keptRoom, Some(seen)) && at - seen > IDLE_TTL && ip != other
    ensures Reaches(limits, es + ReapFor(ip, other, at), ip, at, limits.Capacity(), keptRoom, None)
  {
    RunExtends(limits, es, BeginReap(0, at));
    var es1 := es + [BeginReap(0, at)];
    RunExtends(limits, es1, Collect(0, ip));
    var es2 := es1 + [Collect(0, ip)];
    RunExtends(limits, es2, RemoveNext(0));
    var es3 := es2 + [RemoveNext(0)];
    RunExtends(limits, es3, Attempt(0, other, at));
    assert es + ReapFor(ip, other, at) == es3 + [Attempt(0, other, at)];
    assert Run(limits, es3 + [Attempt(0, other, at)]).value.reapers == map[];
  }

  /** With room in the reaped entry only, the next attempt tells the two apart. */
  lemma VerdictsPart(limits: Limits, es: seq<Event>, ip: IpAddr, at: real, room: real, keptRoom: real,
                     seen: Option<real>)
    requires limits.rateConfigured && Reaches(limits, es, ip, at, room, keptRoom, seen) && keptRoom < 1.0 <= room
    ensures !Invisible(limits) && (CanAdmit(limits) ==> !GrantsAgree(limits))
  {
    RunExtends(limits, es, BeginReap(0, at));
    var es1 := es + [BeginReap(0, at)];
    ChargeEntry(limits, Lookup(Run(limits, es).value.states, ip), at);
    ChargeEntry(limits, Lookup(Unreaped(limits, es), ip), at);
    assert Attempts(limits, es1, 0, ip, at);
    assert VerdictAfter(limits, es1, ip, at) != UnreapedVerdict(limits, es1, ip, at);
  }

  const SOMEONE := V4(1)
  const ANOTHER := V4(2)

  lemma StartsPoised(limits: Limits)
    ensures Reaches(limits, [], SOMEONE, 0.0, limits.Capacity(), limits.Capacity(), None)
  {
  }

  /** A moment past the TTL at which a drained bucket has earned `TTL * rate` tokens and half of another. */
  lemma JustPastTtl(rate: real) returns (at: real)
    requires rate >= 1.0
    ensures at > IDLE_TTL
    ensures Earning(rate)(at) - Earning(rate)(0.0) == IDLE_TTL * rate + 0.5
    ensures Earning(rate)(at) - Earning(rate)(IDLE_TTL) == 0.5
    ensures Earning(rate)(IDLE_TTL) - Earning(rate)(0.0) == IDLE_TTL * rate
  {
    var extra := 0.5 / rate;
    assert rate * extra == 0.5 && extra > 0.0;
    at := IDLE_TTL + extra;
    assert rate * at == rate * IDLE_TTL + rate * extra;
  }

  /** Drain the bucket, let the entry be reaped as soon as it may, and come back: a burst that the TTL cannot
      earn back is granted again. */
  lemma BurstOutlastsTtl(limits: Limits, burst: nat, rate: nat)
    requires limits.rateConfigured && CanAdmit(limits)
    requires limits.Capacity() == burst as real && limits.Rate() == rate as real && burst > 300 * rate
    ensures !GrantsAgree(limits) && !Invisible(limits)
  {
    var capacity := burst as real;
    StartsPoised(limits);
    var drain := Rounds(limits, SOMEONE, 0.0, burst);
    RoundsCharge(limits, [], SOMEONE, 0.0, capacity, capacity, None, burst);
    assert [] + drain == drain;
    var at := JustPastTtl(limits.Rate());
    var earned := (300 * rate) as real + 0.5;
    ReachesLater(limits, drain, SOMEONE, 0.0, at, 0.0, 0.0, Some(0.0), earned);
    ReapForgets(limits, drain, SOMEONE, ANOTHER, at, earned, earned, 0.0);
    var reaped := drain + ReapFor(SOMEONE, ANOTHER, at);
    RoundsCharge(limits, reaped, SOMEONE, at, capacity, earned, None, 300 * rate);
    VerdictsPart(limits, reaped + Rounds(limits, SOMEONE, at, 300 * rate), SOMEONE, at,
                 capacity - (300 * rate) as real, 0.5, if rate > 0 then Some(at) else None);
  }

  /** An attempt at time zero, and at the end of the TTL enough of them to take every token. */
  function ZeroCapRun(limits: Limits, burst: nat): seq<Event> {
    Rounds(limits, SOMEONE, 0.0, 1) + Rounds(limits, SOMEONE, IDLE_TTL, burst)
  }

  lemma ZeroCapDrains(limits: Limits, burst: nat)
    requires limits.rateConfigured && !CanAdmit(limits) && limits.Capacity() == burst as real
    ensures Reaches(limits, ZeroCapRun(limits, burst), SOMEONE, IDLE_TTL, 0.0, 0.0, Some(0.0))
  {
    var capacity := burst as real;
    var first := Rounds(limits, SOMEONE, 0.0, 1);
    StartsPoised(limits);
    RoundsCharge(limits, [], SOMEONE, 0.0, capacity, capacity, None, 1);
    assert [] + first == first;
    var earned := Earning(limits.Rate())(IDLE_TTL) - Earning(limits.Rate())(0.0);
    assert earned >= 1.0;
    ReachesLater(limits, first, SOMEONE, 0.0, IDLE_TTL, capacity - 1.0, capacity - 1.0, Some(0.0), earned);
    RoundsCharge(limits, first, SOMEONE, IDLE_TTL, capacity, capacity, Some(0.0), burst);
  }

  /** With a cap of zero nothing is granted and nothing refreshes an entry, but tokens are still taken:
      reaping the drained entry changes the reason of a refusal. */
  lemma ZeroCapShows(limits: Limits, burst: nat)
    requires limits.rateConfigured && !CanAdmit(limits) && limits.Capacity() == burst as real
    ensures !Invisible(limits)
  {
    var drained := ZeroCapRun(limits, burst);
    ZeroCapDrains(limits, burst);
    var at := JustPastTtl(limits.Rate());
    ReachesLater(limits, drained, SOMEONE, IDLE_TTL, at, 0.0, 0.0, Some(0.0), 0.5);
    ReapForgets(limits, drained, SOMEONE, ANOTHER, at, 0.5, 0.5, 0.0);
    VerdictsPart(limits, drained + ReapFor(SOMEONE, ANOTHER, at), SOMEONE, at, limits.Capacity(), 0.5, None);
  }

  /** The settings after their defaults: the rate is at least one, and the burst, where unset, the rate. */
  function WholeRate(ipConnectionRate: Option<nat>): nat {
    if ipConnectionRate.Some? && ipConnectionRate.value > 1 then ipConnectionRate.value else 1
  }

  function WholeBurst(ipConnectionRate: Option<nat>, ipRateBurst: Option<nat>): nat {
    if ipRateBurst.None? then WholeRate(ipConnectionRate)
    else if ipRateBurst.value > 1 then ipRateBurst.value
    else 1
  }

  /** What the three settings come to. */
  lemma ConfiguredExactly(ipMaxConcurrent: Option<nat>, ipConnectionRate: Option<nat>, ipRateBurst: Option<nat>)
    ensures var configured := FromConfig(ipMaxConcurrent, ipConnectionRate, ipRateBurst);
            && (configured.None? <==> ipMaxConcurrent.None? && ipConnectionRate.None?)
            && (configured.Some? ==>
                  var limits := configured.value;
                  && limits.maxConcurrent == ipMaxConcurrent && (limits.rateConfigured <==> ipConnectionRate.Some?)
                  && limits.Rate() == WholeRate(ipConnectionRate) as real
                  && limits.Capacity() == WholeBurst(ipConnectionRate, ipRateBurst) as real)
  {
  }

  lemma TtlRefillsExactly(ipMaxConcurrent: Option<nat>, ipConnectionRate: Option<nat>, ipRateBurst: Option<nat>)
    requires FromConfig(ipMaxConcurrent, ipConnectionRate, ipRateBurst).Some?
    ensures TtlRefills(FromConfig(ipMaxConcurrent, ipConnectionRate, ipRateBurst).value)
       <==> ipConnectionRate.None? || WholeBurst(ipConnectionRate, ipRateBurst) <= 300 * WholeRate(ipConnectionRate)
  {
    ConfiguredExactly(ipMaxConcurrent, ipConnectionRate, ipRateBurst);
    assert (300 * WholeRate(ipConnectionRate)) as real == IDLE_TTL * WholeRate(ipConnectionRate) as real;
  }

  /** For every configuration: the reaper changes no verdict exactly when no rate is set, or the burst is at most 300
      times the rate and some attempt can be granted at all. */
  lemma InvisibleExactly(ipMaxConcurrent: Option<nat>, ipConnectionRate: Option<nat>, ipRateBurst: Option<nat>)
    requires FromConfig(ipMaxConcurrent, ipConnectionRate, ipRateBurst).Some?
    ensures Invisible(FromConfig(ipMaxConcurrent, ipConnectionRate, ipRateBurst).value)
       <==> || ipConnectionRate.None?
            || (&& WholeBurst(ipConnectionRate, ipRateBurst) <= 300 * WholeRate(ipConnectionRate)
                && ipMaxConcurrent != Some(0))
  {
    var limits := FromConfig(ipMaxConcurrent, ipConnectionRate, ipRateBurst).value;
    var burst, rate := WholeBurst(ipConnectionRate, ipRateBurst), WholeRate(ipConnectionRate);
    ConfiguredExactly(ipMaxConcurrent, ipConnectionRate, ipRateBurst);
    TtlRefillsExactly(ipMaxConcurrent, ipConnectionRate, ipRateBurst);
    if !CanAdmit(limits) {
      ZeroCapShows(limits, burst);
    } else if !TtlRefills(limits) {
      BurstOutlastsTtl(limits, burst, rate);
    } else {
      InvisibleIf(limits);
    }
  }

  /** And it changes no grant exactly when no rate is set, the burst is at most 300 times the rate, or nothing is ever
      granted. */
  lemma GrantsAgreeExactly(ipMaxConcurrent: Option<nat>, ipConnectionRate: Option<nat>, ipRateBurst: Option<nat>)
    requires FromConfig(ipMaxConcurrent, ipConnectionRate, ipRateBurst).Some?
    ensures GrantsAgree(FromConfig(ipMaxConcurrent, ipConnectionRate, ipRateBurst).value)
       <==> || ipConnectionRate.None?
            || WholeBurst(ipConnectionRate, ipRateBurst) <= 300 * WholeRate(ipConnectionRate)
            || ipMaxConcurrent == Some(0)
  {
    var limits := FromConfig(ipMaxConcurrent, ipConnectionRate, ipRateBurst).value;
    var burst, rate := WholeBurst(ipConnectionRate, ipRateBurst), WholeRate(ipConnectionRate);
    ConfiguredExactly(ipMaxConcurrent, ipConnectionRate, ipRateBurst);
    TtlRefillsExactly(ipMaxConcurrent, ipConnectionRate, ipRateBurst);
    if limits.maxConcurrent == Some(0) {
      assert GrantsAgree(limits);
    } else if !TtlRefills(limits) {
      BurstOutlastsTtl(limits, burst, rate);
    } else {
      InvisibleIf(limits);
    }
  }

  // ----- One reap from beginning to end

  ghost function StaleKeys(states: map<IpAddr, IpState>, now: real): set<IpAddr> {
    set ip | ip in states && Stale(states[ip], now)
  }

  /** A reap that runs undisturbed removes stale entries only, and as many as there are up to its limit. */
  ghost predicate Reaped(before: map<IpAddr, IpState>, now: real, after: map<IpAddr, IpState>) {
    var stale, gone := StaleKeys(before, now), before.Keys - after.Keys;
    gone <= stale && |gone| == (if |stale| <= MAX_VICTIMS then |stale| else MAX_VICTIMS) && after == before - gone
  }

  /** One `try_acquire` that nobody comes between: a reap, and the decision on what it left. */
  ghost predicate Acquires(limits: Limits, before: map<IpAddr, IpState>, ip: IpAddr, now: real,
                           after: map<IpAddr, IpState>)
  {
    exists left :: Reaped(before, now, left) && after == Decide(limits, left, ip, now).0
  }

  /** Successive acquisitions, from any addresses and with any verdicts. */
  ghost predicate AcquisitionSeries(limits: Limits, states: seq<map<IpAddr, IpState>>, ips: seq<IpAddr>,
                                    times: seq<real>)
  {
    && |ips| == |times| && |states| == |times| + 1
    && Sorted(times)
    && forall i | 0 <= i < |times| :: Acquires(limits, states[i], ips[i], times[i], states[i + 1])
  }

  /** A decision leaves a stale entry only where one was, or where it has made one that has had time to go stale. */
  lemma DecisionStales(limits: Limits, left: map<IpAddr, IpState>, ip: IpAddr, now: real, at: real)
    ensures StaleKeys(Decide(limits, left, ip, now).0, at)
         <= StaleKeys(left, at) + if at - now <= IDLE_TTL then {} else {ip}
  {
  }

  lemma SubsetSize<T>(a: set<T>, b: set<T>)
    requires a <= b
    ensures |a| <= |b|
  {
    DifferenceSize(b, a);
  }

  lemma UnionSize<T>(a: set<T>, x: T)
    ensures |a + {x}| <= |a| + 1
  {
    assert x in a ==> a + {x} == a;
  }

  /** What a series of this many acquisitions may itself add to the entries stale by its end: nothing while it is
      shorter than the TTL. */
  function Added(start: real, end: real, acquisitions: nat): nat {
    if end - start <= IDLE_TTL then 0 else acquisitions
  }

  lemma DecisionAdds(limits: Limits, left: map<IpAddr, IpState>, ip: IpAddr, now: real, at: real)
    ensures |StaleKeys(Decide(limits, left, ip, now).0, at)| <= |StaleKeys(left, at)| + Added(now, at, 1)
  {
    DecisionStales(limits, left, ip, now, at);
    var more := if at - now <= IDLE_TTL then {} else {ip};
    SubsetSize(StaleKeys(Decide(limits, left, ip, now).0, at), StaleKeys(left, at) + more);
    UnionSize(StaleKeys(left, at), ip);
  }

  lemma AcquisitionProgress(limits: Limits, before: map<IpAddr, IpState>, ip: IpAddr, now: real,
                            after: map<IpAddr, IpState>, start: real, end: real)
    requires Acquires(limits, before, ip, now, after) && start <= now <= end
    ensures StaleKeys(after, start) <= StaleKeys(before, start)
    ensures || StaleKeys(after, start) == {}
            || |StaleKeys(after, end)| + MAX_VICTIMS <= |StaleKeys(before, end)| + Added(start, end, 1)
  {
    var left :| Reaped(before, now, left) && after == Decide(limits, left, ip, now).0;
    ReapProgress(before, now, left, start, end);
    DecisionStales(limits, left, ip, now, start);
    DecisionAdds(limits, left, ip, now, end);
  }

  /** Each acquisition takes its full share of the entries stale by `end`, or leaves nothing stale at `start`. */
  lemma {:induction false} SeriesProgress(limits: Limits, states: seq<map<IpAddr, IpState>>, ips: seq<IpAddr>,
                                          times: seq<real>, k: nat, start: real, end: real)
    requires AcquisitionSeries(limits, states, ips, times) && k <= |times| && From(start, times)
    requires forall i | 0 <= i < |times| :: times[i] <= end
    ensures || |StaleKeys(states[k], end)| + MAX_VICTIMS * k <= |StaleKeys(states[0], end)| + Added(start, end, k)
            || StaleKeys(states[k], start) == {}
  {
    if k > 0 {
      SeriesProgress(limits, states, ips, times, k - 1, start, end);
      AcquisitionProgress(limits, states[k - 1], ips[k - 1], times[k - 1], states[k], start, end);
    }
  }

  lemma StaleLater(states: map<IpAddr, IpState>, now: real, later: real)
    requires now <= later
    ensures StaleKeys(states, now) <= StaleKeys(states, later)
  {
  }

  lemma StaleLeft(before: map<IpAddr, IpState>, now: real, after: map<IpAddr, IpState>, at: real)
    requires Reaped(before, now, after)
    ensures StaleKeys(after, at) == StaleKeys(before, at) - (before.Keys - after.Keys)
  {
  }

  lemma ReapProgress(before: map<IpAddr, IpState>, now: real, after: map<IpAddr, IpState>, start: real, end: real)
    requires Reaped(before, now, after) && start <= now <= end
    ensures StaleKeys(after, start) <= StaleKeys(before, start)
    ensures StaleKeys(after, start) == {} || |StaleKeys(after, end)| + MAX_VICTIMS == |StaleKeys(before, end)|
  {
    var gone := before.Keys - after.Keys;
    StaleLater(before, start, now);
    StaleLater(before, now, end);
    StaleLeft(before, now, after, start);
    StaleLeft(before, now, after, end);
    if |StaleKeys(before, now)| <= MAX_VICTIMS {
      SameSize(gone, StaleKeys(before, now));
    } else {
      DifferenceSize(StaleKeys(before, end), gone);
    }
  }

  lemma SameSize<T>(a: set<T>, b: set<T>)
    requires a <= b && |a| == |b|
    ensures a == b
  {
    DifferenceSize(b, a);
  }

  lemma DifferenceSize<T>(a: set<T>, b: set<T>)
    requires b <= a
    ensures |a - b| == |a| - |b|
  {
    assert a == b + (a - b);
  }

  /** `ceil(n / 64)` acquisitions clear `n` stale entries, counting those that turn stale on the way; where the
      series is longer than the TTL, its own refused newcomers can be among them, one for each acquisition. */
  lemma AcquisitionsClear(limits: Limits, states: seq<map<IpAddr, IpState>>, ips: seq<IpAddr>, times: seq<real>)
    requires AcquisitionSeries(limits, states, ips, times) && times != []
    requires var start, end := times[0], times[|times| - 1];
             |StaleKeys(states[0], end)| + Added(start, end, |times|) <= 64 * |times|
    ensures StaleKeys(states[|times|], times[0]) == {}
  {
    var start, end, last := times[0], times[|times| - 1], states[|times|];
    SeriesProgress(limits, states, ips, times, |times|, start, end);
    assert StaleKeys(last, start) <= StaleKeys(last, end);
  }

  ghost predicate Distinct(victims: seq<IpAddr>) {
    forall i, j | 0 <= i < j < |victims| :: victims[i] != victims[j]
  }

  ghost predicate Victims(states: map<IpAddr, IpState>, now: real, victims: seq<IpAddr>) {
    && Distinct(victims) && |victims| <= MAX_VICTIMS
    && (forall ip | ip in victims :: ip in StaleKeys(states, now))
    && (|victims| == MAX_VICTIMS || forall ip | ip in StaleKeys(states, now) :: ip in victims)
  }

  lemma {:induction false} DistinctSize(victims: seq<IpAddr>, members: set<IpAddr>)
    requires Distinct(victims) && forall ip :: ip in members <==> ip in victims
    ensures |members| == |victims|
  {
    if victims == [] {
      assert members == {};
    } else {
      var n := |victims| - 1;
      DistinctSize(victims[..n], members - {victims[n]});
    }
  }

  lemma VictimsReaped(before: map<IpAddr, IpState>, now: real, victims: seq<IpAddr>, after: map<IpAddr, IpState>)
    requires Victims(before, now, victims)
    requires forall ip :: ip in after <==> ip in before && ip !in victims
    requires forall ip | ip in after :: after[ip] == before[ip]
    ensures Reaped(before, now, after)
  {
    var stale, gone := StaleKeys(before, now), before.Keys - after.Keys;
    assert forall ip :: ip in gone <==> ip in victims;
    DistinctSize(victims, gone);
    DifferenceSize(stale, gone);
    if |victims| < MAX_VICTIMS {
      assert stale <= gone;
    }
    assert after.Keys == before.Keys - gone;
  }

  // ----- The limiter itself

  class IpLimiter {
    const limits: Limits
    var states: map<IpAddr, IpState>

    constructor (limits: Limits)
      ensures this.limits == limits && states == map[]
    {
      this.limits := limits;
      states := map[];
    }

    method ReapIdle(now: real)
      modifies this
      ensures Reaped(old(states), now, states)
    {
      var victims := ScanIdle(now);
      for i := 0 to |victims|
        invariant forall ip :: ip in states <==> ip in old(states) && ip !in victims[..i]
        invariant forall ip | ip in states :: states[ip] == old(states)[ip]
      {
        assert victims[..i + 1] == victims[..i] + [victims[i]];
        assert victims[i] in StaleKeys(old(states), now);
        states := Forget(states, victims[i], now);
      }
      assert victims[..|victims|] == victims;
      VictimsReaped(old(states), now, victims, states);
    }

    /** The first loop: entries in any order, until the list is full. */
    method ScanIdle(now: real) returns (victims: seq<IpAddr>)
      ensures Victims(states, now, victims)
    {
      victims := [];
      var rest := states.Keys;
      while rest != {}
        invariant rest <= states.Keys
        invariant |victims| < MAX_VICTIMS && Distinct(victims)
        invariant forall ip :: ip in victims <==> ip in StaleKeys(states, now) && ip !in rest
        decreases |rest|
      {
        var ip :| ip in rest;
        rest := rest - {ip};
        if Stale(states[ip], now) {
          victims := victims + [ip];
          if |victims| >= MAX_VICTIMS {
            break;
          }
        }
      }
    }

    method TryAcquire(ip: IpAddr, now: real) returns (verdict: Verdict, ghost reaped: map<IpAddr, IpState>)
      modifies this
      ensures Reaped(old(states), now, reaped)
      ensures (states, verdict) == Decide(limits, reaped, ip, now)
      ensures Acquires(limits, old(states), ip, now, states)
    {
      ReapIdle(now);
      reaped := states;
      verdict := DecideGuarded(ip, now);
    }

    /** What happens while the guard of the address's entry is held. */
    method DecideGuarded(ip: IpAddr, now: real) returns (verdict: Verdict)
      modifies this
      ensures (states, verdict) == Decide(limits, old(states), ip, now)
    {
      var state := if ip in states then states[ip] else FreshState(limits, now);
      if limits.rateConfigured {
        var (bucket, inRate) := Consume(state.bucket, now);
        state := state.(bucket := bucket);
        if !inRate {
          states := states[ip := state];
          return RateLimited;
        }
      }
      if limits.maxConcurrent.Some? && state.concurrent >= limits.maxConcurrent.value {
        states := states[ip := state];
        return ConcurrencyLimited;
      }
      states := states[ip := state.(concurrent := state.concurrent + 1, lastSeen := now)];
      return Granted;
    }

    method Release(ip: IpAddr, now: real)
      modifies this
      ensures states == GiveBack(old(states), ip, now)
    {
      if ip in states {
        var state := states[ip];
        if state.concurrent > 0 {
          state := state.(concurrent := state.concurrent - 1);
        }
        states := states[ip := state.(lastSeen := now)];
      }
    }
  }

  /** A permit gives its slot back once, however often it is dropped. */
  class IpPermit {
    var ip: Option<IpAddr>
    const limiter: IpLimiter

    constructor (ip: IpAddr, limiter: IpLimiter)
      ensures this.ip == Some(ip) && this.limiter == limiter
    {
      this.ip := Some(ip);
      this.limiter := limiter;
    }

    method Drop(now: real)
      modifies this, limiter
      ensures ip == None
      ensures limiter.states
           == if old(ip).Some? then GiveBack(old(limiter.states), old(ip).value, now) else old(limiter.states)
    {
      var taken := ip;
      ip := None;
      if taken.Some? {
        limiter.Release(taken.value, now);
      }
    }
  }
}
