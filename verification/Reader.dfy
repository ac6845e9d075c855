/** The reader tasks of src/server.rs: which frames are handled when every connection has a message bucket of
    its own and all connections of a tenant share another (`check_tenant_rate` in src/state.rs). */
module Readers {
  import opened Options
  import opened TokenBuckets

  datatype Settings = Settings(rate: nat, burst: nat, maxText: nat, tenantRate: Option<nat>, tenantBurst: Option<nat>)

  /** What a reader can be woken by; `Silence` is the idle timeout. */
  datatype Input = Text(length: nat) | Binary | Ping | Pong | Close | Broken | Silence

  datatype Outcome = Handled | ConnectionLimited | TooLarge | TenantLimited | Answered | Skipped | Ended

  datatype Reader = Reader(tenant: string, bucket: Bucket, stopped: bool)

  predicate IsData(input: Input) {
    input.Text? || input.Binary?
  }

  predicate Ends(outcome: Outcome) {
    outcome == ConnectionLimited || outcome == Ended
  }

  predicate Oversized(cfg: Settings, input: Input) {
    input.Text? && input.length > cfg.maxText
  }

  function NewReader(cfg: Settings, tenant: string, now: real): Reader {
    Reader(tenant, NewBucket(cfg.rate as real, cfg.burst as real, now), false)
  }

  function NewTenantBucket(cfg: Settings, now: real): Bucket
    requires cfg.tenantRate.Some?
  {
    var rate := cfg.tenantRate.value as real;
    NewBucket(rate, if cfg.tenantBurst.Some? then cfg.tenantBurst.value as real else MaxReal(rate, 1.0), now)
  }

  datatype Checked = Checked(tenants: map<string, Bucket>, ok: bool)

  /** A tenant's bucket comes into being with its first check. */
  function CheckTenant(cfg: Settings, tenants: map<string, Bucket>, tenant: string, now: real): Checked {
    if cfg.tenantRate.None? then Checked(tenants, true)
    else
      var bucket := if tenant in tenants then tenants[tenant] else NewTenantBucket(cfg, now);
      var answer := Consume(bucket, now);
      Checked(tenants[tenant := answer.0], answer.1)
  }

  datatype Received = Received(reader: Reader, tenants: map<string, Bucket>, outcome: Outcome)

  /** One turn of the reader loop. Only text frames have a size limit. */
  function Receive(cfg: Settings, r: Reader, tenants: map<string, Bucket>, now: real, input: Input): Received {
    if IsData(input) then
      var own := Consume(r.bucket, now);
      var r' := r.(bucket := own.0);
      if !own.1 then Received(r'.(stopped := true), tenants, ConnectionLimited)
      else if Oversized(cfg, input) then Received(r', tenants, TooLarge)
      else
        var shared := CheckTenant(cfg, tenants, r.tenant, now);
        Received(r', shared.tenants, if shared.ok then Handled else TenantLimited)
    else if input.Ping? then Received(r, tenants, Answered)
    else if input.Pong? then Received(r, tenants, Skipped)
    else Received(r.(stopped := true), tenants, Ended)
  }

  // ----- Many readers

  datatype Entry = Entry(c: nat, tenant: string, at: real, input: Input, outcome: Outcome)

  datatype State = State(readers: map<nat, Reader>, tenants: map<string, Bucket>, clock: real, log: seq<Entry>)

  datatype Event = Open(c: nat, tenant: string, at: real) | Arrive(c: nat, at: real, input: Input)

  predicate Enabled(s: State, e: Event) {
    && s.clock <= e.at
    && if e.Open? then e.c !in s.readers else e.c in s.readers && !s.readers[e.c].stopped
  }

  function Apply(cfg: Settings, s: State, e: Event): State
    requires Enabled(s, e)
  {
    match e
    case Open(c, tenant, at) => s.(readers := s.readers[c := NewReader(cfg, tenant, at)], clock := at)
    case Arrive(c, at, input) =>
      var r := Receive(cfg, s.readers[c], s.tenants, at, input);
      State(s.readers[c := r.reader], r.tenants, at, s.log + [Entry(c, r.reader.tenant, at, input, r.outcome)])
  }

  function Run(cfg: Settings, start: real, es: seq<Event>): Option<State> {
    if es == [] then Some(State(map[], map[], start, []))
    else
      var before, e := Run(cfg, start, es[..|es| - 1]), es[|es| - 1];
      if before.Some? && Enabled(before.value, e) then Some(Apply(cfg, before.value, e)) else None
  }

  // ----- What a history says

  /** When connection `c` got a frame past its own bucket. */
  ghost function PassedBy(log: seq<Entry>, c: nat): seq<real> {
    if log == [] then []
    else
      var early, last := PassedBy(log[..|log| - 1], c), log[|log| - 1];
      if last.c == c && last.outcome in {Handled, TooLarge, TenantLimited} then early + [last.at] else early
  }

  /** When a frame of `tenant` was handled. */
  ghost function HandledFor(log: seq<Entry>, tenant: string): seq<real> {
    if log == [] then []
    else
      var early, last := HandledFor(log[..|log| - 1], tenant), log[|log| - 1];
      if last.tenant == tenant && last.outcome == Handled then early + [last.at] else early
  }

  /** After admissions at `times`, one more at `now` overcrowds no window that began at one of them. */
  ghost predicate Allows(capacity: real, rate: real, times: seq<real>, now: real) {
    Fits(capacity, Map(Earning(rate), times), Earning(rate)(now))
  }

  function OwnBurst(cfg: Settings): real {
    MaxReal(cfg.burst as real, 1.0)
  }

  function OwnRate(cfg: Settings): real {
    MaxReal(cfg.rate as real, 1.0)
  }

  function TenantRate(cfg: Settings): real
    requires cfg.tenantRate.Some?
  {
    MaxReal(cfg.tenantRate.value as real, 1.0)
  }

  /** The burst defaults to the rate. */
  function TenantBurst(cfg: Settings): real
    requires cfg.tenantRate.Some?
  {
    if cfg.tenantBurst.Some? then MaxReal(cfg.tenantBurst.value as real, 1.0) else TenantRate(cfg)
  }

  ghost predicate OwnAllows(cfg: Settings, log: seq<Entry>, c: nat, now: real) {
    Allows(OwnBurst(cfg), OwnRate(cfg), PassedBy(log, c), now)
  }

  ghost predicate TenantAllows(cfg: Settings, log: seq<Entry>, tenant: string, now: real) {
    cfg.tenantRate.Some? ==> Allows(TenantBurst(cfg), TenantRate(cfg), HandledFor(log, tenant), now)
  }

  /** What becomes of an input, from nothing but what became of the earlier ones. */
  ghost function Verdict(cfg: Settings, log: seq<Entry>, c: nat, tenant: string, at: real, input: Input): Outcome {
    match input
    case Text(length) =>
      if !OwnAllows(cfg, log, c, at) then ConnectionLimited
      else if length > cfg.maxText then TooLarge
      else if !TenantAllows(cfg, log, tenant, at) then TenantLimited
      else Handled
    case Binary =>
      if !OwnAllows(cfg, log, c, at) then ConnectionLimited
      else if !TenantAllows(cfg, log, tenant, at) then TenantLimited
      else Handled
    case Ping => Answered
    case Pong => Skipped
    case Close => Ended
    case Broken => Ended
    case Silence => Ended
  }

  /** Every outcome in the log is the verdict on the log before it. */
  ghost predicate Judged(cfg: Settings, log: seq<Entry>) {
    log == [] ||
    (var before, last := log[..|log| - 1], log[|log| - 1];
     Judged(cfg, before) && last.outcome == Verdict(cfg, before, last.c, last.tenant, last.at, last.input))
  }

  // ----- A bucket and the admissions it stands for

  ghost predicate Meters(b: Bucket, capacity: real, rate: real, times: seq<real>, clock: real) {
    && b.capacity == capacity && b.rate == rate && rate >= 1.0 && b.lastRefill <= clock
    && Tracks(b.ToGauge(), Map(Earning(rate), times))
    && Sorted(times) && (forall i | 0 <= i < |times| :: times[i] <= clock)
  }

  lemma NewMeters(refillPerSecond: real, burst: real, now: real)
    ensures Meters(NewBucket(refillPerSecond, burst, now), MaxReal(burst, 1.0), MaxReal(refillPerSecond, 1.0), [], now)
  {
    assert Map(Earning(MaxReal(refillPerSecond, 1.0)), []) == [];
  }

  lemma GaugeStep(g: Gauge, earned: real -> real, times: seq<real>, now: real)
    requires Tracks(g, Map(earned, times)) && g.last <= earned(now)
    ensures var (after, ok) := Draw(g, earned(now));
            && (ok <==> Fits(g.capacity, Map(earned, times), earned(now)))
            && Tracks(after, Map(earned, if ok then times + [now] else times))
  {
    DrawScansHistory(g, Map(earned, times), earned(now));
    assert Map(earned, times + [now]) == Map(earned, times) + [earned(now)];
  }

  lemma EarnedBy(rate: real, earlier: real, now: real)
    requires rate >= 1.0 && earlier <= now
    ensures Earning(rate)(earlier) <= Earning(rate)(now)
  {
    EarningIncreases(rate);
  }

  lemma ConsumeMoves(b: Bucket, now: real)
    ensures var after := Consume(b, now).0;
            after.capacity == b.capacity && after.rate == b.rate && after.lastRefill == now
  {
  }

  lemma MeterTracks(b: Bucket, earned: real -> real, times: seq<real>, now: real)
    requires earned == Earning(b.rate) && Tracks(b.ToGauge(), Map(earned, times)) && b.ToGauge().last <= earned(now)
    ensures Consume(b, now).1 <==> Fits(b.capacity, Map(earned, times), earned(now))
    ensures Tracks(Consume(b, now).0.ToGauge(), Map(earned, if Consume(b, now).1 then times + [now] else times))
  {
    ConsumeIsDraw(b, now);
    GaugeStep(b.ToGauge(), earned, times, now);
  }

  lemma MeterStep(b: Bucket, capacity: real, rate: real, times: seq<real>, clock: real, now: real)
    requires Meters(b, capacity, rate, times, clock) && clock <= now
    ensures Consume(b, now).1 <==> Allows(capacity, rate, times, now)
    ensures Meters(Consume(b, now).0, capacity, rate, if Consume(b, now).1 then times + [now] else times, now)
  {
    EarnedBy(rate, b.lastRefill, now);
    MeterTracks(b, Earning(rate), times, now);
    ConsumeMoves(b, now);
  }

  lemma MeterWindow(b: Bucket, capacity: real, rate: real, times: seq<real>, clock: real, earned: real -> real,
                    from: real, to: real)
    requires Meters(b, capacity, rate, times, clock) && earned == Earning(rate) && from <= to
    ensures CountIn(times, from, to) as real <= capacity + earned(to) - earned(from)
  {
    EarningIncreases(rate);
    CountOnClock(earned, times, from, to);
    WindowHolds(capacity, Map(earned, times), earned(from), earned(to));
  }

  // ----- What every step keeps

  ghost predicate OwnMetered(cfg: Settings, r: Reader, log: seq<Entry>, c: nat, clock: real) {
    Meters(r.bucket, OwnBurst(cfg), OwnRate(cfg), PassedBy(log, c), clock)
  }

  ghost predicate TenantMetered(cfg: Settings, tenants: map<string, Bucket>, log: seq<Entry>, tenant: string,
                                clock: real)
  {
    cfg.tenantRate.Some? ==>
      if tenant in tenants then
        Meters(tenants[tenant], TenantBurst(cfg), TenantRate(cfg), HandledFor(log, tenant), clock)
      else HandledFor(log, tenant) == []
  }

  ghost predicate EndedIn(log: seq<Entry>, c: nat) {
    exists i :: 0 <= i < |log| && log[i].c == c && Ends(log[i].outcome)
  }

  /** A connection's log stops with the frame that ended it. */
  ghost predicate NothingAfterEnd(log: seq<Entry>) {
    forall i, j | 0 <= i < j < |log| && log[i].c == log[j].c :: !Ends(log[i].outcome)
  }

  ghost predicate ReaderOk(cfg: Settings, r: Reader, log: seq<Entry>, c: nat, clock: real) {
    && OwnMetered(cfg, r, log, c, clock)
    && (r.stopped <==> EndedIn(log, c))
    && forall i | 0 <= i < |log| && log[i].c == c :: log[i].tenant == r.tenant
  }

  ghost predicate Inv(cfg: Settings, s: State) {
    && (forall i | 0 <= i < |s.log| :: s.log[i].c in s.readers)
    && (forall c | c in s.readers :: ReaderOk(cfg, s.readers[c], s.log, c, s.clock))
    && (forall tenant :: TenantMetered(cfg, s.tenants, s.log, tenant, s.clock))
    && NothingAfterEnd(s.log)
    && Judged(cfg, s.log)
  }

  lemma MetersLater(b: Bucket, capacity: real, rate: real, times: seq<real>, clock: real, later: real)
    requires Meters(b, capacity, rate, times, clock) && clock <= later
    ensures Meters(b, capacity, rate, times, later)
  {
  }

  lemma LogExtends(log: seq<Entry>, e: Entry, c: nat, tenant: string)
    ensures PassedBy(log + [e], c) ==
            if e.c == c && e.outcome in {Handled, TooLarge, TenantLimited} then PassedBy(log, c) + [e.at]
            else PassedBy(log, c)
    ensures HandledFor(log + [e], tenant) ==
            if e.tenant == tenant && e.outcome == Handled then HandledFor(log, tenant) + [e.at]
            else HandledFor(log, tenant)
  {
    assert (log + [e])[..|log|] == log;
  }

  lemma {:induction false} StrangersPassNothing(log: seq<Entry>, c: nat)
    requires forall i | 0 <= i < |log| :: log[i].c != c
    ensures PassedBy(log, c) == []
  {
    if log != [] {
      StrangersPassNothing(log[..|log| - 1], c);
    }
  }

  /** The shared bucket answers as the history does, and is the history afterwards. */
  lemma CheckTenantScans(cfg: Settings, tenants: map<string, Bucket>, log: seq<Entry>, tenant: string, clock: real,
                         now: real)
    requires TenantMetered(cfg, tenants, log, tenant, clock) && clock <= now && cfg.tenantRate.Some?
    ensures var checked := CheckTenant(cfg, tenants, tenant, now);
            && (checked.ok <==> TenantAllows(cfg, log, tenant, now))
            && tenant in checked.tenants
            && Meters(checked.tenants[tenant], TenantBurst(cfg), TenantRate(cfg),
                      if checked.ok then HandledFor(log, tenant) + [now] else HandledFor(log, tenant), now)
  {
    if tenant in tenants {
      MeterStep(tenants[tenant], TenantBurst(cfg), TenantRate(cfg), HandledFor(log, tenant), clock, now);
    } else {
      var b := NewTenantBucket(cfg, now);
      NewMeters(cfg.tenantRate.value as real,
                if cfg.tenantBurst.Some? then cfg.tenantBurst.value as real
                else MaxReal(cfg.tenantRate.value as real, 1.0),
                now);
      MeterStep(b, TenantBurst(cfg), TenantRate(cfg), [], now, now);
    }
  }

  lemma ReceiveJudges(cfg: Settings, s: State, c: nat, at: real, input: Input)
    requires Inv(cfg, s) && Enabled(s, Arrive(c, at, input))
    ensures Receive(cfg, s.readers[c], s.tenants, at, input).outcome
         == Verdict(cfg, s.log, c, s.readers[c].tenant, at, input)
  {
    var r := s.readers[c];
    assert ReaderOk(cfg, r, s.log, c, s.clock);
    if IsData(input) {
      MeterStep(r.bucket, OwnBurst(cfg), OwnRate(cfg), PassedBy(s.log, c), s.clock, at);
      if cfg.tenantRate.Some? {
        assert TenantMetered(cfg, s.tenants, s.log, r.tenant, s.clock);
        CheckTenantScans(cfg, s.tenants, s.log, r.tenant, s.clock, at);
      }
    }
  }

  /** The log entry that an arrival makes. */
  function EntryOf(cfg: Settings, s: State, c: nat, at: real, input: Input): Entry
    requires c in s.readers
  {
    Entry(c, s.readers[c].tenant, at, input, Receive(cfg, s.readers[c], s.tenants, at, input).outcome)
  }

  lemma OwnAfter(cfg: Settings, s: State, c: nat, at: real, input: Input)
    requires c in s.readers && OwnMetered(cfg, s.readers[c], s.log, c, s.clock) && s.clock <= at
    ensures OwnMetered(cfg, Receive(cfg, s.readers[c], s.tenants, at, input).reader,
                       s.log + [EntryOf(cfg, s, c, at, input)], c, at)
  {
    var r, e := s.readers[c], EntryOf(cfg, s, c, at, input);
    LogExtends(s.log, e, c, "");
    if IsData(input) {
      MeterStep(r.bucket, OwnBurst(cfg), OwnRate(cfg), PassedBy(s.log, c), s.clock, at);
    } else {
      MetersLater(r.bucket, OwnBurst(cfg), OwnRate(cfg), PassedBy(s.log, c), s.clock, at);
    }
  }

  lemma CheckKeepsTenants(cfg: Settings, tenants: map<string, Bucket>, log: seq<Entry>, e: Entry, clock: real,
                          tenant: string)
    requires TenantMetered(cfg, tenants, log, tenant, clock) && clock <= e.at
    requires e.outcome == if CheckTenant(cfg, tenants, e.tenant, e.at).ok then Handled else TenantLimited
    ensures TenantMetered(cfg, CheckTenant(cfg, tenants, e.tenant, e.at).tenants, log + [e], tenant, e.at)
  {
    LogExtends(log, e, e.c, tenant);
    if cfg.tenantRate.Some? {
      if tenant == e.tenant {
        CheckTenantScans(cfg, tenants, log, tenant, clock, e.at);
      } else if tenant in tenants {
        MetersLater(tenants[tenant], TenantBurst(cfg), TenantRate(cfg), HandledFor(log, tenant), clock, e.at);
      }
    }
  }

  lemma OthersKeepTenants(cfg: Settings, tenants: map<string, Bucket>, log: seq<Entry>, e: Entry, clock: real,
                          tenant: string)
    requires TenantMetered(cfg, tenants, log, tenant, clock) && clock <= e.at && e.outcome != Handled
    ensures TenantMetered(cfg, tenants, log + [e], tenant, e.at)
  {
    LogExtends(log, e, e.c, tenant);
    if cfg.tenantRate.Some? && tenant in tenants {
      MetersLater(tenants[tenant], TenantBurst(cfg), TenantRate(cfg), HandledFor(log, tenant), clock, e.at);
    }
  }

  /** Whether the shared bucket is asked at all. */
  predicate ReachesTenant(cfg: Settings, r: Reader, at: real, input: Input) {
    IsData(input) && Consume(r.bucket, at).1 && !Oversized(cfg, input)
  }

  lemma TenantAfter(cfg: Settings, s: State, c: nat, at: real, input: Input, tenant: string)
    requires c in s.readers && TenantMetered(cfg, s.tenants, s.log, tenant, s.clock) && s.clock <= at
    ensures TenantMetered(cfg, Receive(cfg, s.readers[c], s.tenants, at, input).tenants,
                          s.log + [EntryOf(cfg, s, c, at, input)], tenant, at)
  {
    if ReachesTenant(cfg, s.readers[c], at, input) {
      CheckKeepsTenants(cfg, s.tenants, s.log, EntryOf(cfg, s, c, at, input), s.clock, tenant);
    } else {
      OthersKeepTenants(cfg, s.tenants, s.log, EntryOf(cfg, s, c, at, input), s.clock, tenant);
    }
  }

  lemma EndedExtends(log: seq<Entry>, e: Entry, c: nat)
    ensures EndedIn(log + [e], c) <==> EndedIn(log, c) || (e.c == c && Ends(e.outcome))
  {
    var longer := log + [e];
    assert longer[|log|] == e;
    if EndedIn(log, c) {
      var i :| 0 <= i < |log| && log[i].c == c && Ends(log[i].outcome);
      assert longer[i] == log[i];
    }
  }

  lemma ReceiveStops(cfg: Settings, r: Reader, tenants: map<string, Bucket>, at: real, input: Input)
    requires !r.stopped
    ensures var received := Receive(cfg, r, tenants, at, input);
            received.reader.tenant == r.tenant && (received.reader.stopped <==> Ends(received.outcome))
  {
  }

  lemma ReceiverOk(cfg: Settings, s: State, c: nat, at: real, input: Input)
    requires Enabled(s, Arrive(c, at, input)) && ReaderOk(cfg, s.readers[c], s.log, c, s.clock)
    ensures ReaderOk(cfg, Receive(cfg, s.readers[c], s.tenants, at, input).reader,
                     s.log + [EntryOf(cfg, s, c, at, input)], c, at)
  {
    OwnAfter(cfg, s, c, at, input);
    ReceiveStops(cfg, s.readers[c], s.tenants, at, input);
    EndedExtends(s.log, EntryOf(cfg, s, c, at, input), c);
  }

  lemma OtherOk(cfg: Settings, r: Reader, log: seq<Entry>, c: nat, clock: real, e: Entry)
    requires ReaderOk(cfg, r, log, c, clock) && e.c != c && clock <= e.at
    ensures ReaderOk(cfg, r, log + [e], c, e.at)
  {
    LogExtends(log, e, c, "");
    MetersLater(r.bucket, OwnBurst(cfg), OwnRate(cfg), PassedBy(log, c), clock, e.at);
    EndedExtends(log, e, c);
  }

  lemma NewcomerOk(cfg: Settings, log: seq<Entry>, c: nat, tenant: string, at: real)
    requires forall i | 0 <= i < |log| :: log[i].c != c
    ensures ReaderOk(cfg, NewReader(cfg, tenant, at), log, c, at)
  {
    StrangersPassNothing(log, c);
    NewMeters(cfg.rate as real, cfg.burst as real, at);
  }

  lemma ReadersAfterArrive(cfg: Settings, s: State, c: nat, at: real, input: Input)
    requires Inv(cfg, s) && Enabled(s, Arrive(c, at, input))
    ensures var s' := Apply(cfg, s, Arrive(c, at, input));
            forall other | other in s'.readers :: ReaderOk(cfg, s'.readers[other], s'.log, other, at)
  {
    var s' := Apply(cfg, s, Arrive(c, at, input));
    forall other | other in s'.readers ensures ReaderOk(cfg, s'.readers[other], s'.log, other, at) {
      if other == c {
        ReceiverOk(cfg, s, c, at, input);
      } else {
        OtherOk(cfg, s.readers[other], s.log, other, s.clock, EntryOf(cfg, s, c, at, input));
      }
    }
  }

  lemma EndStaysLast(log: seq<Entry>, e: Entry)
    requires NothingAfterEnd(log) && !EndedIn(log, e.c)
    ensures NothingAfterEnd(log + [e])
  {
  }

  lemma ArriveKeepsInv(cfg: Settings, s: State, c: nat, at: real, input: Input)
    requires Inv(cfg, s) && Enabled(s, Arrive(c, at, input))
    ensures Inv(cfg, Apply(cfg, s, Arrive(c, at, input)))
  {
    var e, s' := EntryOf(cfg, s, c, at, input), Apply(cfg, s, Arrive(c, at, input));
    assert s'.log == s.log + [e] && s'.log[..|s.log|] == s.log;
    ReceiveJudges(cfg, s, c, at, input);
    ReadersAfterArrive(cfg, s, c, at, input);
    forall tenant ensures TenantMetered(cfg, s'.tenants, s'.log, tenant, at) {
      TenantAfter(cfg, s, c, at, input, tenant);
    }
    assert ReaderOk(cfg, s.readers[c], s.log, c, s.clock);
    EndStaysLast(s.log, e);
  }

  lemma OpenKeepsInv(cfg: Settings, s: State, c: nat, tenant: string, at: real)
    requires Inv(cfg, s) && Enabled(s, Open(c, tenant, at))
    ensures Inv(cfg, Apply(cfg, s, Open(c, tenant, at)))
  {
    var s' := Apply(cfg, s, Open(c, tenant, at));
    NewcomerOk(cfg, s.log, c, tenant, at);
    forall other | other in s.readers ensures ReaderOk(cfg, s.readers[other], s.log, other, at) {
      MetersLater(s.readers[other].bucket, OwnBurst(cfg), OwnRate(cfg), PassedBy(s.log, other), s.clock, at);
    }
    forall t ensures TenantMetered(cfg, s.tenants, s.log, t, at) {
      assert TenantMetered(cfg, s.tenants, s.log, t, s.clock);
      if cfg.tenantRate.Some? && t in s.tenants {
        MetersLater(s.tenants[t], TenantBurst(cfg), TenantRate(cfg), HandledFor(s.log, t), s.clock, at);
      }
    }
  }

  lemma {:induction false} RunKeepsInv(cfg: Settings, start: real, es: seq<Event>, s: State)
    requires Run(cfg, start, es) == Some(s)
    ensures Inv(cfg, s)
  {
    if es != [] {
      var before, e := Run(cfg, start, es[..|es| - 1]).value, es[|es| - 1];
      RunKeepsInv(cfg, start, es[..|es| - 1], before);
      match e
      case Open(c, tenant, at) => OpenKeepsInv(cfg, before, c, tenant, at);
      case Arrive(c, at, input) => ArriveKeepsInv(cfg, before, c, at, input);
    }
  }

  // ----- What that means

  /** In every run with any number of connections and tenants, each input meets the fate that the history alone
      decides: the buckets, refilled when somebody looks and created when first needed, only remember it. */
  lemma HistoryDecides(cfg: Settings, start: real, es: seq<Event>, s: State)
    requires Run(cfg, start, es) == Some(s)
    ensures Judged(cfg, s.log)
  {
    RunKeepsInv(cfg, start, es, s);
  }

  lemma MeteredBudget(b: Bucket, capacity: real, rate: real, times: seq<real>, clock: real)
    requires Meters(b, capacity, rate, times, clock)
    ensures WithinBudget(times, capacity, rate)
  {
    forall from, to | from <= to
      ensures CountIn(times, from, to) as real <= capacity + Earning(rate)(to) - Earning(rate)(from)
    {
      MeterWindow(b, capacity, rate, times, clock, Earning(rate), from, to);
    }
    EarnedIsBudget(times, capacity, rate);
  }

  lemma NothingInBudget(burst: real, rate: real)
    requires burst >= 0.0 && rate >= 1.0
    ensures WithinBudget([], burst, rate)
  {
    forall from, to | from <= to
      ensures CountIn([], from, to) as real <= burst + Earning(rate)(to) - Earning(rate)(from)
    {
      EarnedBy(rate, from, to);
    }
    EarnedIsBudget([], burst, rate);
  }

  lemma MeteredTenantBudget(cfg: Settings, tenants: map<string, Bucket>, log: seq<Entry>, tenant: string, clock: real)
    requires TenantMetered(cfg, tenants, log, tenant, clock) && cfg.tenantRate.Some?
    ensures WithinBudget(HandledFor(log, tenant), TenantBurst(cfg), TenantRate(cfg))
  {
    if tenant in tenants {
      MeteredBudget(tenants[tenant], TenantBurst(cfg), TenantRate(cfg), HandledFor(log, tenant), clock);
    } else {
      NothingInBudget(TenantBurst(cfg), TenantRate(cfg));
    }
  }

  /** However a tenant spreads its frames over connections, no window has more handled than the tenant's burst
      and what its rate earns over the window. */
  lemma TenantBudget(cfg: Settings, start: real, es: seq<Event>, s: State, tenant: string)
    requires Run(cfg, start, es) == Some(s) && cfg.tenantRate.Some?
    ensures WithinBudget(HandledFor(s.log, tenant), TenantBurst(cfg), TenantRate(cfg))
  {
    RunKeepsInv(cfg, start, es, s);
    MeteredTenantBudget(cfg, s.tenants, s.log, tenant, s.clock);
  }

  /** The same for one connection and the frames its own bucket lets pass. */
  lemma ConnectionBudget(cfg: Settings, start: real, es: seq<Event>, s: State, c: nat)
    requires Run(cfg, start, es) == Some(s) && c in s.readers
    ensures WithinBudget(PassedBy(s.log, c), OwnBurst(cfg), OwnRate(cfg))
  {
    RunKeepsInv(cfg, start, es, s);
    assert ReaderOk(cfg, s.readers[c], s.log, c, s.clock);
    MeteredBudget(s.readers[c].bucket, OwnBurst(cfg), OwnRate(cfg), PassedBy(s.log, c), s.clock);
  }

  /** A reader has stopped exactly when its own bucket refused a frame or its input ended, and nothing of its
      connection is looked at after that; no other outcome stops it. */
  lemma ReaderStopsExactly(cfg: Settings, start: real, es: seq<Event>, s: State, c: nat)
    requires Run(cfg, start, es) == Some(s) && c in s.readers
    ensures s.readers[c].stopped <==> EndedIn(s.log, c)
    ensures NothingAfterEnd(s.log)
  {
    RunKeepsInv(cfg, start, es, s);
  }

  function CountOf(log: seq<Entry>, outcome: Outcome): nat {
    if log == [] then 0
    else CountOf(log[..|log| - 1], outcome) + if log[|log| - 1].outcome == outcome then 1 else 0
  }

  /** What `message_in` counts. */
  function CountData(log: seq<Entry>): nat {
    if log == [] then 0 else CountData(log[..|log| - 1]) + if IsData(log[|log| - 1].input) then 1 else 0
  }

  lemma {:induction false} EveryFrameOnce(cfg: Settings, log: seq<Entry>)
    requires Judged(cfg, log)
    ensures CountData(log) == CountOf(log, Handled) + CountOf(log, ConnectionLimited) + CountOf(log, TooLarge)
                              + CountOf(log, TenantLimited)
  {
    if log != [] {
      EveryFrameOnce(cfg, log[..|log| - 1]);
    }
  }

  // ----- One reader's loop

  datatype Timed = Timed(at: real, input: Input)

  datatype Served = Served(reader: Reader, tenants: map<string, Bucket>, outcomes: seq<Outcome>)

  /** The loop of one reader that nobody comes between: turn after turn until it stops or the input is used up. */
  function Serve(cfg: Settings, r: Reader, tenants: map<string, Bucket>, inputs: seq<Timed>): Served
    decreases |inputs|
  {
    if inputs == [] || r.stopped then Served(r, tenants, [])
    else
      var first := Receive(cfg, r, tenants, inputs[0].at, inputs[0].input);
      var rest := Serve(cfg, first.reader, first.tenants, inputs[1..]);
      rest.(outcomes := [first.outcome] + rest.outcomes)
  }

  /** The arrivals such a loop looks at. */
  function Looked(cfg: Settings, r: Reader, tenants: map<string, Bucket>, c: nat, inputs: seq<Timed>): seq<Event>
    decreases |inputs|
  {
    if inputs == [] || r.stopped then []
    else
      var first := Receive(cfg, r, tenants, inputs[0].at, inputs[0].input);
      [Arrive(c, inputs[0].at, inputs[0].input)] + Looked(cfg, first.reader, first.tenants, c, inputs[1..])
  }

  ghost predicate Chronological(from: real, inputs: seq<Timed>)
    decreases |inputs|
  {
    inputs == [] || (from <= inputs[0].at && Chronological(inputs[0].at, inputs[1..]))
  }

  lemma RunStep(cfg: Settings, start: real, es: seq<Event>, s: State, e: Event)
    requires Run(cfg, start, es) == Some(s) && Enabled(s, e)
    ensures Run(cfg, start, es + [e]) == Some(Apply(cfg, s, e))
  {
    assert (es + [e])[..|es|] == es;
  }

  /** The loop is one of the runs: what holds of those holds of it. */
  lemma {:induction false} ServeIsRun(cfg: Settings, start: real, es: seq<Event>, s: State, c: nat, inputs: seq<Timed>)
    requires Run(cfg, start, es) == Some(s) && c in s.readers && Chronological(s.clock, inputs)
    ensures var served := Serve(cfg, s.readers[c], s.tenants, inputs);
            var after := Run(cfg, start, es + Looked(cfg, s.readers[c], s.tenants, c, inputs));
            && after.Some? && c in after.value.readers
            && after.value.readers[c] == served.reader && after.value.tenants == served.tenants
    decreases |inputs|
  {
    var r := s.readers[c];
    if inputs == [] || r.stopped {
      assert es + [] == es;
    } else {
      var e := Arrive(c, inputs[0].at, inputs[0].input);
      var s' := Apply(cfg, s, e);
      RunStep(cfg, start, es, s, e);
      ServeIsRun(cfg, start, es + [e], s', c, inputs[1..]);
      var rest := Looked(cfg, s'.readers[c], s'.tenants, c, inputs[1..]);
      assert es + ([e] + rest) == (es + [e]) + rest;
    }
  }

  // ----- One tenant alone

  function Owners(es: seq<Event>): map<nat, string> {
    if es == [] then map[]
    else
      var early, e := Owners(es[..|es| - 1]), es[|es| - 1];
      if e.Open? then early[e.c := e.tenant] else early
  }

  predicate IsOf(owners: map<nat, string>, e: Event, tenant: string) {
    if e.Open? then e.tenant == tenant else e.c in owners && owners[e.c] == tenant
  }

  /** What happens to one tenant's connections. */
  function OnlyEvents(es: seq<Event>, tenant: string): seq<Event> {
    if es == [] then []
    else
      var before, e := es[..|es| - 1], es[|es| - 1];
      OnlyEvents(before, tenant) + if IsOf(Owners(before), e, tenant) then [e] else []
  }

  function OnlyLog(log: seq<Entry>, tenant: string): seq<Entry> {
    if log == [] then []
    else OnlyLog(log[..|log| - 1], tenant) + if log[|log| - 1].tenant == tenant then [log[|log| - 1]] else []
  }

  /** `alone` is what `tenant` can tell of `s`. */
  ghost predicate Agree(s: State, alone: State, tenant: string) {
    && alone.clock <= s.clock
    && (forall c :: c in alone.readers <==> c in s.readers && s.readers[c].tenant == tenant)
    && (forall c | c in alone.readers :: alone.readers[c] == s.readers[c])
    && (tenant in alone.tenants <==> tenant in s.tenants)
    && (tenant in s.tenants ==> alone.tenants[tenant] == s.tenants[tenant])
    && alone.log == OnlyLog(s.log, tenant)
  }

  ghost predicate OwnersMatch(owners: map<nat, string>, readers: map<nat, Reader>) {
    forall c :: (c in owners <==> c in readers) && (c in readers ==> owners[c] == readers[c].tenant)
  }

  lemma OnlyLogExtends(log: seq<Entry>, e: Entry, tenant: string)
    ensures OnlyLog(log + [e], tenant)
         == if e.tenant == tenant then OnlyLog(log, tenant) + [e] else OnlyLog(log, tenant)
  {
    assert (log + [e])[..|log|] == log;
  }

  lemma SameFate(cfg: Settings, r: Reader, t1: map<string, Bucket>, t2: map<string, Bucket>, at: real, input: Input)
    requires r.tenant in t1 <==> r.tenant in t2
    requires r.tenant in t1 ==> t1[r.tenant] == t2[r.tenant]
    ensures var r1, r2 := Receive(cfg, r, t1, at, input), Receive(cfg, r, t2, at, input);
            && r1.reader == r2.reader && r1.outcome == r2.outcome
            && (r.tenant in r1.tenants <==> r.tenant in r2.tenants)
            && (r.tenant in r1.tenants ==> r1.tenants[r.tenant] == r2.tenants[r.tenant])
  {
  }

  lemma OthersBuckets(cfg: Settings, r: Reader, tenants: map<string, Bucket>, at: real, input: Input, tenant: string)
    requires tenant != r.tenant
    ensures var after := Receive(cfg, r, tenants, at, input).tenants;
            (tenant in after <==> tenant in tenants) && (tenant in tenants ==> after[tenant] == tenants[tenant])
    ensures Receive(cfg, r, tenants, at, input).reader.tenant == r.tenant
  {
  }

  lemma OwnEvent(cfg: Settings, s: State, alone: State, tenant: string, e: Event)
    requires Agree(s, alone, tenant) && Enabled(s, e)
    requires if e.Open? then e.tenant == tenant else s.readers[e.c].tenant == tenant
    ensures Enabled(alone, e) && Agree(Apply(cfg, s, e), Apply(cfg, alone, e), tenant)
  {
    if e.Arrive? {
      var r := s.readers[e.c];
      assert r.tenant == tenant && e.c in alone.readers;
      SameFate(cfg, r, s.tenants, alone.tenants, e.at, e.input);
      OnlyLogExtends(s.log, EntryOf(cfg, s, e.c, e.at, e.input), tenant);
      SameTenant(cfg, r, s.tenants, e.at, e.input);
    }
  }

  lemma SameTenant(cfg: Settings, r: Reader, tenants: map<string, Bucket>, at: real, input: Input)
    ensures Receive(cfg, r, tenants, at, input).reader.tenant == r.tenant
  {
  }

  lemma OthersEvent(cfg: Settings, s: State, alone: State, tenant: string, e: Event)
    requires Agree(s, alone, tenant) && Enabled(s, e)
    requires if e.Open? then e.tenant != tenant else s.readers[e.c].tenant != tenant
    ensures Agree(Apply(cfg, s, e), alone, tenant)
  {
    if e.Arrive? {
      OthersBuckets(cfg, s.readers[e.c], s.tenants, e.at, e.input, tenant);
      OnlyLogExtends(s.log, EntryOf(cfg, s, e.c, e.at, e.input), tenant);
    }
  }

  lemma OwnersStep(cfg: Settings, s: State, es: seq<Event>, e: Event)
    requires OwnersMatch(Owners(es), s.readers) && Enabled(s, e)
    ensures OwnersMatch(Owners(es + [e]), Apply(cfg, s, e).readers)
  {
    assert (es + [e])[..|es|] == es;
    if e.Arrive? {
      SameTenant(cfg, s.readers[e.c], s.tenants, e.at, e.input);
    }
  }

  /** Nothing that other tenants do changes what becomes of a tenant's frames: left alone, they fare the same. */
  lemma {:induction false} NeighboursDontMatter(cfg: Settings, start: real, es: seq<Event>, s: State, tenant: string)
    requires Run(cfg, start, es) == Some(s)
    ensures var alone := Run(cfg, start, OnlyEvents(es, tenant));
            alone.Some? && Agree(s, alone.value, tenant) && OwnersMatch(Owners(es), s.readers)
  {
    if es != [] {
      var early, e := es[..|es| - 1], es[|es| - 1];
      var before := Run(cfg, start, early).value;
      NeighboursDontMatter(cfg, start, early, before, tenant);
      var alone := Run(cfg, start, OnlyEvents(early, tenant)).value;
      OwnersStep(cfg, before, early, e);
      assert early + [e] == es;
      if IsOf(Owners(early), e, tenant) {
        OwnEvent(cfg, before, alone, tenant, e);
        assert OnlyEvents(es, tenant)[..|OnlyEvents(early, tenant)|] == OnlyEvents(early, tenant);
      } else {
        OthersEvent(cfg, before, alone, tenant, e);
        assert OnlyEvents(es, tenant) == OnlyEvents(early, tenant);
      }
    }
  }
}
