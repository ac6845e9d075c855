/** One handshake from beginning to end, when nobody comes between: `ws_handler` of src/server.rs as one run of the
    steps of Handshake.dfy. */
module Handlers {
  import opened Options
  import opened Handshakes
  import I = IpLimiters

  ghost predicate Leads(cfg: Config, s: Server, es: seq<Event>, s': Server)
    decreases |es|
  {
    if es == [] then s == s' else Enabled(cfg, s, es[0]) && Leads(cfg, Apply(cfg, s, es[0]), es[1..], s')
  }

  lemma LeadsFirst(cfg: Config, s: Server, e: Event, rest: seq<Event>, s': Server)
    requires Enabled(cfg, s, e) && Leads(cfg, Apply(cfg, s, e), rest, s')
    ensures Leads(cfg, s, [e] + rest, s')
  {
    assert ([e] + rest)[1..] == rest;
  }

  lemma {:induction false} LeadsThen(cfg: Config, s: Server, es: seq<Event>, mid: Server, more: seq<Event>, s': Server)
    requires Leads(cfg, s, es, mid) && Leads(cfg, mid, more, s')
    ensures Leads(cfg, s, es + more, s')
    decreases |es|
  {
    if es == [] {
      assert es + more == more;
    } else {
      LeadsThen(cfg, Apply(cfg, s, es[0]), es[1..], mid, more, s');
      LeadsFirst(cfg, s, es[0], es[1..] + more, s');
      assert es + more == [es[0]] + (es[1..] + more);
    }
  }

  lemma {:induction false} LeadsInRun(cfg: Config, es: seq<Event>, s: Server, more: seq<Event>, s': Server)
    requires Run(cfg, es) == Some(s) && Leads(cfg, s, more, s')
    ensures Run(cfg, es + more) == Some(s')
    decreases |more|
  {
    if more == [] {
      assert es + more == es;
    } else {
      assert (es + [more[0]])[..|es|] == es;
      assert es + more == (es + [more[0]]) + more[1..];
      LeadsInRun(cfg, es + [more[0]], Apply(cfg, s, more[0]), more[1..], s');
    }
  }

  ghost predicate Reaping(cfg: Config, s: Server, h: nat, now: real) {
    && cfg.limits.Some? && InPhase(s, h, Arrived) && h in s.limiter.reapers && s.limiter.reapers[h].scannedAt == now
  }

  function WithReaper(s: Server, h: nat, states: map<I.IpAddr, I.IpState>, reaper: I.Reaper): Server {
    s.(limiter := s.limiter.(states := states, reapers := s.limiter.reapers[h := reaper]))
  }

  lemma ReplacesReaper(s: Server, h: nat, states: map<I.IpAddr, I.IpState>, reaper: I.Reaper,
                       later: map<I.IpAddr, I.IpState>, last: I.Reaper)
    ensures WithReaper(WithReaper(s, h, states, reaper), h, later, last) == WithReaper(s, h, later, last)
  {
    assert s.limiter.reapers[h := reaper][h := last] == s.limiter.reapers[h := last];
  }

  lemma SameReaper(s: Server, h: nat)
    requires h in s.limiter.reapers
    ensures WithReaper(s, h, s.limiter.states, s.limiter.reapers[h]) == s
  {
    assert s.limiter.reapers[h := s.limiter.reapers[h]] == s.limiter.reapers;
  }

  lemma CollectStep(cfg: Config, s: Server, h: nat, now: real, ip: I.IpAddr)
    requires Reaping(cfg, s, h, now) && I.Enabled(s.limiter, I.Collect(h, ip))
    ensures Enabled(cfg, s, Reap(I.Collect(h, ip)))
    ensures Apply(cfg, s, Reap(I.Collect(h, ip)))
         == WithReaper(s, h, s.limiter.states, I.Reaper(now, s.limiter.reapers[h].victims + [ip], true))
  {
  }

  lemma {:induction false} CollectAll(cfg: Config, s: Server, h: nat, now: real, rest: set<I.IpAddr>)
    returns (es: seq<Event>, victims: seq<I.IpAddr>)
    requires Reaping(cfg, s, h, now) && s.limiter.reapers[h].scanning
    requires |s.limiter.reapers[h].victims| + |rest| <= I.MAX_VICTIMS
    requires forall ip | ip in rest ::
               ip in s.limiter.states && I.Stale(s.limiter.states[ip], now) && ip !in s.limiter.reapers[h].victims
    ensures Leads(cfg, s, es, WithReaper(s, h, s.limiter.states, I.Reaper(now, victims, true)))
    ensures forall ip :: ip in victims <==> ip in s.limiter.reapers[h].victims || ip in rest
    decreases |rest|
  {
    es, victims := [], s.limiter.reapers[h].victims;
    if rest == {} {
      SameReaper(s, h);
    } else {
      var ip :| ip in rest;
      var states := s.limiter.states;
      CollectStep(cfg, s, h, now, ip);
      var reaper := I.Reaper(now, victims + [ip], true);
      es, victims := CollectAll(cfg, WithReaper(s, h, states, reaper), h, now, rest - {ip});
      ReplacesReaper(s, h, states, reaper, states, I.Reaper(now, victims, true));
      LeadsFirst(cfg, s, Reap(I.Collect(h, ip)), es, WithReaper(s, h, states, I.Reaper(now, victims, true)));
      es := [Reap(I.Collect(h, ip))] + es;
    }
  }

  lemma RemoveStep(cfg: Config, s: Server, h: nat, now: real)
    requires Reaping(cfg, s, h, now) && s.limiter.reapers[h].victims != []
    ensures Enabled(cfg, s, Reap(I.RemoveNext(h)))
    ensures var victims := s.limiter.reapers[h].victims;
            Apply(cfg, s, Reap(I.RemoveNext(h)))
            == WithReaper(s, h, I.Forget(s.limiter.states, victims[0], now), I.Reaper(now, victims[1..], false))
  {
  }

  lemma {:induction false} RemoveAll(cfg: Config, s: Server, h: nat, now: real, left: map<I.IpAddr, I.IpState>)
    returns (es: seq<Event>, scanning: bool)
    requires Reaping(cfg, s, h, now)
    requires var states, victims := s.limiter.states, s.limiter.reapers[h].victims;
             && (forall ip | ip in victims && ip in states :: I.Stale(states[ip], now))
             && (forall ip :: ip in left <==> ip in states && ip !in victims)
             && (forall ip | ip in left :: left[ip] == states[ip])
    ensures Leads(cfg, s, es, WithReaper(s, h, left, I.Reaper(now, [], scanning)))
    decreases |s.limiter.reapers[h].victims|
  {
    var victims := s.limiter.reapers[h].victims;
    es, scanning := [], s.limiter.reapers[h].scanning;
    if victims == [] {
      assert left == s.limiter.states;
      SameReaper(s, h);
    } else {
      RemoveStep(cfg, s, h, now);
      var states, reaper := I.Forget(s.limiter.states, victims[0], now), I.Reaper(now, victims[1..], false);
      assert forall ip :: ip in victims <==> ip == victims[0] || ip in victims[1..];
      es, scanning := RemoveAll(cfg, WithReaper(s, h, states, reaper), h, now, left);
      ReplacesReaper(s, h, states, reaper, left, I.Reaper(now, [], scanning));
      LeadsFirst(cfg, s, Reap(I.RemoveNext(h)), es, WithReaper(s, h, left, I.Reaper(now, [], scanning)));
      es := [Reap(I.RemoveNext(h))] + es;
    }
  }

  function AfterReap(s: Server, h: nat, now: real, left: map<I.IpAddr, I.IpState>, scanning: bool): Server {
    WithReaper(s.(limiter := s.limiter.(clock := now)), h, left, I.Reaper(now, [], scanning))
  }

  lemma BeginStep(cfg: Config, s: Server, h: nat, now: real)
    requires cfg.limits.Some? && InPhase(s, h, Arrived) && h !in s.limiter.reapers && s.limiter.clock <= now
    ensures Enabled(cfg, s, Reap(I.BeginReap(h, now)))
    ensures Apply(cfg, s, Reap(I.BeginReap(h, now)))
         == WithReaper(s.(limiter := s.limiter.(clock := now)), h, s.limiter.states, I.Reaper(now, [], true))
  {
  }

  /** A reap that nobody comes between is a run of its thread's steps. */
  lemma ReapRuns(cfg: Config, s: Server, h: nat, now: real, left: map<I.IpAddr, I.IpState>)
    returns (es: seq<Event>, scanning: bool)
    requires cfg.limits.Some? && InPhase(s, h, Arrived) && h !in s.limiter.reapers && s.limiter.clock <= now
    requires I.Reaped(s.limiter.states, now, left)
    ensures Leads(cfg, s, es, AfterReap(s, h, now, left, scanning))
  {
    var states, clocked := s.limiter.states, s.(limiter := s.limiter.(clock := now));
    BeginStep(cfg, s, h, now);
    var begun := WithReaper(clocked, h, states, I.Reaper(now, [], true));
    var gone := states.Keys - left.Keys;
    forall ip | ip in gone ensures ip in states && I.Stale(states[ip], now) {
      assert ip in I.StaleKeys(states, now);
    }
    var collects, victims := CollectAll(cfg, begun, h, now, gone);
    var collected := WithReaper(clocked, h, states, I.Reaper(now, victims, true));
    ReplacesReaper(clocked, h, states, I.Reaper(now, [], true), states, I.Reaper(now, victims, true));
    var removes;
    removes, scanning := RemoveAll(cfg, collected, h, now, left);
    ReplacesReaper(clocked, h, states, I.Reaper(now, victims, true), left, I.Reaper(now, [], scanning));
    LeadsThen(cfg, begun, collects, collected, removes, AfterReap(s, h, now, left, scanning));
    LeadsFirst(cfg, s, Reap(I.BeginReap(h, now)), collects + removes, AfterReap(s, h, now, left, scanning));
    es := [Reap(I.BeginReap(h, now))] + (collects + removes);
  }

  /** A refusal to its end: it is counted and the permits are dropped, the slot before the address. */
  predicate BackingOut(s: Server, h: nat, now: real) {
    && h in s.handshakes && s.handshakes[h].phase.Refused? && s.handshakes[h].holdsTenant.None?
    && s.limiter.clock <= now
  }

  function IpDropped(cfg: Config, s: Server, h: nat, now: real): Server
    requires InPhase(s, h, Leaving) && s.limiter.clock <= now
  {
    if s.handshakes[h].holdsIp then Apply(cfg, s, DropIp(h, now)) else s
  }

  function SlotDropped(cfg: Config, s: Server, h: nat): Server
    requires InPhase(s, h, Leaving)
  {
    if s.handshakes[h].holdsSlot then Apply(cfg, s, DropSlot(h)) else s
  }

  function BackedOut(cfg: Config, s: Server, h: nat, now: real): Server
    requires BackingOut(s, h, now)
  {
    var counted := Apply(cfg, s, CountRefusal(h));
    IpDropped(cfg, SlotDropped(cfg, counted, h), h, now)
  }

  lemma IpDropRuns(cfg: Config, s: Server, h: nat, now: real) returns (es: seq<Event>)
    requires InPhase(s, h, Leaving) && s.limiter.clock <= now
    ensures Leads(cfg, s, es, IpDropped(cfg, s, h, now))
  {
    es := [];
    if s.handshakes[h].holdsIp {
      es := [DropIp(h, now)];
      LeadsFirst(cfg, s, DropIp(h, now), [], IpDropped(cfg, s, h, now));
    }
  }

  lemma SlotDropRuns(cfg: Config, s: Server, h: nat) returns (es: seq<Event>)
    requires InPhase(s, h, Leaving)
    ensures Leads(cfg, s, es, SlotDropped(cfg, s, h))
  {
    es := [];
    if s.handshakes[h].holdsSlot {
      es := [DropSlot(h)];
      LeadsFirst(cfg, s, DropSlot(h), [], SlotDropped(cfg, s, h));
    }
  }

  lemma BackOutRuns(cfg: Config, s: Server, h: nat, now: real) returns (es: seq<Event>)
    requires BackingOut(s, h, now)
    ensures Leads(cfg, s, es, BackedOut(cfg, s, h, now))
  {
    var counted := Apply(cfg, s, CountRefusal(h));
    var slotless := SlotDropped(cfg, counted, h);
    var slots := SlotDropRuns(cfg, counted, h);
    var ips := IpDropRuns(cfg, slotless, h, now);
    LeadsThen(cfg, counted, slots, slotless, ips, BackedOut(cfg, s, h, now));
    LeadsFirst(cfg, s, CountRefusal(h), slots + ips, BackedOut(cfg, s, h, now));
    es := [CountRefusal(h)] + (slots + ips);
  }

  // What each check comes to, by itself and with the ones behind it.

  predicate Handling(s: Server, h: nat, now: real) {
    h in s.handshakes && s.handshakes[h].holdsTenant.None? && s.limiter.clock <= now
  }

  lemma PassStep(cfg: Config, s: Server, h: nat, now: real)
    requires Enabled(cfg, s, PassIp(h, now)) && Handling(s, h, now)
    ensures Handling(Apply(cfg, s, PassIp(h, now)), h, now)
  {
  }

  function FromTenant(cfg: Config, s: Server, h: nat, now: real): Server
    requires Ready(s, TakeTenant(h)) && Handling(s, h, now)
  {
    var asked := Apply(cfg, s, TakeTenant(h));
    if asked.handshakes[h].phase.Refused? then BackedOut(cfg, asked, h, now) else asked
  }

  function FromAuth(cfg: Config, s: Server, h: nat, tenant: Option<string>, now: real): Server
    requires InPhase(s, h, SlotTaken) && Handling(s, h, now)
  {
    var asked := Apply(cfg, s, Authenticate(h, tenant));
    if asked.handshakes[h].phase.Refused? then BackedOut(cfg, asked, h, now) else FromTenant(cfg, asked, h, now)
  }

  function FromSlot(cfg: Config, s: Server, h: nat, tenant: Option<string>, now: real): Server
    requires InPhase(s, h, IpPassed) && Handling(s, h, now)
  {
    var asked := Apply(cfg, s, TakeSlot(h));
    if asked.handshakes[h].phase.Refused? then BackedOut(cfg, asked, h, now) else FromAuth(cfg, asked, h, tenant, now)
  }

  function FromIp(cfg: Config, s: Server, h: nat, tenant: Option<string>, now: real): Server
    requires Enabled(cfg, s, PassIp(h, now)) && Handling(s, h, now)
  {
    PassStep(cfg, s, h, now);
    var asked := Apply(cfg, s, PassIp(h, now));
    if asked.handshakes[h].phase.Refused? then BackedOut(cfg, asked, h, now) else FromSlot(cfg, asked, h, tenant, now)
  }

  lemma FromTenantRuns(cfg: Config, s: Server, h: nat, now: real) returns (es: seq<Event>)
    requires Ready(s, TakeTenant(h)) && Handling(s, h, now)
    ensures Leads(cfg, s, es, FromTenant(cfg, s, h, now))
  {
    var asked := Apply(cfg, s, TakeTenant(h));
    es := [];
    if asked.handshakes[h].phase.Refused? {
      es := BackOutRuns(cfg, asked, h, now);
    }
    LeadsFirst(cfg, s, TakeTenant(h), es, FromTenant(cfg, s, h, now));
    es := [TakeTenant(h)] + es;
  }

  lemma FromAuthRuns(cfg: Config, s: Server, h: nat, tenant: Option<string>, now: real) returns (es: seq<Event>)
    requires InPhase(s, h, SlotTaken) && Handling(s, h, now)
    ensures Leads(cfg, s, es, FromAuth(cfg, s, h, tenant, now))
  {
    var asked := Apply(cfg, s, Authenticate(h, tenant));
    if asked.handshakes[h].phase.Refused? {
      es := BackOutRuns(cfg, asked, h, now);
    } else {
      es := FromTenantRuns(cfg, asked, h, now);
    }
    LeadsFirst(cfg, s, Authenticate(h, tenant), es, FromAuth(cfg, s, h, tenant, now));
    es := [Authenticate(h, tenant)] + es;
  }

  lemma FromSlotRuns(cfg: Config, s: Server, h: nat, tenant: Option<string>, now: real) returns (es: seq<Event>)
    requires InPhase(s, h, IpPassed) && Handling(s, h, now)
    ensures Leads(cfg, s, es, FromSlot(cfg, s, h, tenant, now))
  {
    var asked := Apply(cfg, s, TakeSlot(h));
    if asked.handshakes[h].phase.Refused? {
      es := BackOutRuns(cfg, asked, h, now);
    } else {
      es := FromAuthRuns(cfg, asked, h, tenant, now);
    }
    LeadsFirst(cfg, s, TakeSlot(h), es, FromSlot(cfg, s, h, tenant, now));
    es := [TakeSlot(h)] + es;
  }

  lemma FromIpRuns(cfg: Config, s: Server, h: nat, tenant: Option<string>, now: real) returns (es: seq<Event>)
    requires Enabled(cfg, s, PassIp(h, now)) && Handling(s, h, now)
    ensures Leads(cfg, s, es, FromIp(cfg, s, h, tenant, now))
  {
    var asked := Apply(cfg, s, PassIp(h, now));
    PassStep(cfg, s, h, now);
    if asked.handshakes[h].phase.Refused? {
      es := BackOutRuns(cfg, asked, h, now);
    } else {
      es := FromSlotRuns(cfg, asked, h, tenant, now);
    }
    LeadsFirst(cfg, s, PassIp(h, now), es, FromIp(cfg, s, h, tenant, now));
    es := [PassIp(h, now)] + es;
  }

  // ----- What it comes to

  datatype Outcome = Admitted | Turned(away: Reason)

  /** The checks in their order; `granted` is the IP limiter's answer. */
  function Decision(cfg: Config, freeSlots: nat, freeTenant: map<string, nat>, tenant: Option<string>,
                    granted: bool): Outcome
  {
    if !granted then Turned(ByIp)
    else if freeSlots == 0 then Turned(ByCapacity)
    else if tenant.None? then Turned(ByAuth)
    else if TenantFull(cfg, freeTenant, tenant.value) then Turned(ByTenant)
    else Admitted
  }

  function CountersAfter(m: Metrics, outcome: Outcome): Metrics {
    match outcome
    case Admitted => m
    case Turned(away) => var own := CountedFor(m, away); own.(rejected := own.rejected + 1)
  }

  /** Only this handshake has changed, and it waits for the upgrade or is gone with its reason. */
  ghost predicate Ends(s: Server, h: nat, s': Server, outcome: Outcome) {
    && h in s'.handshakes && s'.handshakes == s.handshakes[h := s'.handshakes[h]]
    && s'.metrics == CountersAfter(s.metrics, outcome)
    && match outcome
       case Admitted => s'.handshakes[h].phase == Upgrading
       case Turned(away) => Gone(s'.handshakes[h]) && s'.handshakes[h].refusal == Some(away)
  }

  /** The limiter once the permit the handshake may hold is back. */
  function Returned(s: Server, h: nat, now: real): I.Limiter
    requires h in s.handshakes
  {
    if s.handshakes[h].holdsIp then I.DropPermit(s.limiter, s.handshakes[h].ip, now) else s.limiter
  }

  lemma BackedOutIs(cfg: Config, s: Server, h: nat, now: real)
    requires BackingOut(s, h, now)
    ensures var x, r := s.handshakes[h], BackedOut(cfg, s, h, now);
            && r.handshakes == s.handshakes[h := x.(phase := Leaving, holdsIp := false, holdsSlot := false)]
            && r.metrics == s.metrics.(rejected := s.metrics.rejected + 1)
            && r.freeSlots == s.freeSlots + (if x.holdsSlot then 1 else 0) && r.freeTenant == s.freeTenant
            && r.limiter == Returned(s, h, now)
  {
    var x, r := s.handshakes[h], BackedOut(cfg, s, h, now);
    assert r.handshakes[h] == x.(phase := Leaving, holdsIp := false, holdsSlot := false);
    assert forall other | other != h :: other in r.handshakes <==> other in s.handshakes;
    assert forall other | other != h && other in s.handshakes :: r.handshakes[other] == s.handshakes[other];
  }

  lemma FromTenantIs(cfg: Config, s: Server, h: nat, now: real)
    requires Ready(s, TakeTenant(h)) && Handling(s, h, now) && s.handshakes[h].holdsSlot
    ensures var tenant, r := s.handshakes[h].phase.tenant, FromTenant(cfg, s, h, now);
            var full := TenantFull(cfg, s.freeTenant, tenant);
            && Ends(s, h, r, if full then Turned(ByTenant) else Admitted)
            && r.freeSlots == s.freeSlots + (if full then 1 else 0)
            && r.freeTenant == TakePermit(cfg, s.freeTenant, tenant)
            && r.limiter == if full then Returned(s, h, now) else s.limiter
  {
    var asked := Apply(cfg, s, TakeTenant(h));
    if asked.handshakes[h].phase.Refused? {
      BackedOutIs(cfg, asked, h, now);
    }
  }

  function FromAuthOutcome(cfg: Config, s: Server, tenant: Option<string>): Outcome {
    if tenant.None? then Turned(ByAuth)
    else if TenantFull(cfg, s.freeTenant, tenant.value) then Turned(ByTenant)
    else Admitted
  }

  /** A check that was passed moves its handshake on and changes nothing else about handshakes and counters. */
  lemma EndsThen(s: Server, h: nat, x: Handshake, asked: Server, s': Server, outcome: Outcome)
    requires asked.handshakes == s.handshakes[h := x] && asked.metrics == s.metrics && Ends(asked, h, s', outcome)
    ensures Ends(s, h, s', outcome)
  {
    assert s.handshakes[h := x][h := s'.handshakes[h]] == s.handshakes[h := s'.handshakes[h]];
  }

  lemma TurnedAway(cfg: Config, s: Server, h: nat, now: real, asked: Server, away: Reason)
    requires h in s.handshakes && asked.handshakes == s.handshakes[h := Refuse(s.handshakes[h], away)]
    requires asked.metrics == CountedFor(s.metrics, away) && BackingOut(asked, h, now)
    ensures Ends(s, h, BackedOut(cfg, asked, h, now), Turned(away))
  {
    BackedOutIs(cfg, asked, h, now);
    var x := Refuse(s.handshakes[h], away);
    var gone := x.(phase := Leaving, holdsIp := false, holdsSlot := false);
    assert s.handshakes[h := x][h := gone] == s.handshakes[h := gone];
  }

  lemma IdentifyStep(cfg: Config, s: Server, h: nat, tenant: string)
    requires InPhase(s, h, SlotTaken)
    ensures Apply(cfg, s, Authenticate(h, Some(tenant)))
         == s.(handshakes := s.handshakes[h := s.handshakes[h].(phase := Identified(tenant))])
  {
  }

  lemma FromAuthIs(cfg: Config, s: Server, h: nat, tenant: Option<string>, now: real)
    requires InPhase(s, h, SlotTaken) && Handling(s, h, now) && s.handshakes[h].holdsSlot
    ensures var r, outcome := FromAuth(cfg, s, h, tenant, now), FromAuthOutcome(cfg, s, tenant);
            && Ends(s, h, r, outcome)
            && r.freeSlots == s.freeSlots + (if outcome.Turned? then 1 else 0)
            && r.freeTenant == (if tenant.Some? then TakePermit(cfg, s.freeTenant, tenant.value) else s.freeTenant)
            && r.limiter == if outcome.Turned? then Returned(s, h, now) else s.limiter
  {
    var asked := Apply(cfg, s, Authenticate(h, tenant));
    if tenant.None? {
      TurnedAway(cfg, s, h, now, asked, ByAuth);
      BackedOutIs(cfg, asked, h, now);
    } else {
      IdentifyStep(cfg, s, h, tenant.value);
      FromTenantIs(cfg, asked, h, now);
      EndsThen(s, h, asked.handshakes[h], asked, FromAuth(cfg, s, h, tenant, now), FromAuthOutcome(cfg, s, tenant));
    }
  }

  lemma TakeSlotStep(cfg: Config, s: Server, h: nat)
    requires InPhase(s, h, IpPassed) && s.freeSlots > 0
    ensures Apply(cfg, s, TakeSlot(h))
         == s.(handshakes := s.handshakes[h := s.handshakes[h].(phase := SlotTaken, holdsSlot := true)],
               freeSlots := s.freeSlots - 1)
  {
  }

  lemma FromSlotIs(cfg: Config, s: Server, h: nat, tenant: Option<string>, now: real)
    requires InPhase(s, h, IpPassed) && Handling(s, h, now) && !s.handshakes[h].holdsSlot
    ensures var r, outcome := FromSlot(cfg, s, h, tenant, now), Decision(cfg, s.freeSlots, s.freeTenant, tenant, true);
            && Ends(s, h, r, outcome)
            && r.freeSlots == s.freeSlots - (if outcome.Admitted? then 1 else 0)
            && r.freeTenant == (if s.freeSlots > 0 && tenant.Some? then TakePermit(cfg, s.freeTenant, tenant.value)
                                else s.freeTenant)
            && r.limiter == if outcome.Turned? then Returned(s, h, now) else s.limiter
  {
    var asked := Apply(cfg, s, TakeSlot(h));
    if s.freeSlots == 0 {
      TurnedAway(cfg, s, h, now, asked, ByCapacity);
      BackedOutIs(cfg, asked, h, now);
    } else {
      TakeSlotStep(cfg, s, h);
      FromAuthIs(cfg, asked, h, tenant, now);
      EndsThen(s, h, asked.handshakes[h], asked, FromSlot(cfg, s, h, tenant, now),
               Decision(cfg, s.freeSlots, s.freeTenant, tenant, true));
    }
  }

  /** The limiter's states after the decision on `left`, and after a later refusal has given the permit back. */
  function StatesAfter(limits: I.Limits, left: map<I.IpAddr, I.IpState>, ip: I.IpAddr, now: real, outcome: Outcome)
    : map<I.IpAddr, I.IpState>
  {
    var decided := I.Decide(limits, left, ip, now).0;
    if outcome.Turned? && outcome.away != ByIp then I.GiveBack(decided, ip, now) else decided
  }

  function Grants(cfg: Config, left: map<I.IpAddr, I.IpState>, ip: I.IpAddr, now: real): bool {
    cfg.limits.Some? ==> I.Decide(cfg.limits.value, left, ip, now).1.Granted?
  }

  /** Only a handshake that got as far has asked for its tenant's permit. */
  function PermitsAfter(cfg: Config, freeTenant: map<string, nat>, tenant: Option<string>,
                        outcome: Outcome): map<string, nat>
  {
    if tenant.Some? && (outcome == Admitted || outcome == Turned(ByTenant))
    then TakePermit(cfg, freeTenant, tenant.value)
    else freeTenant
  }

  /** What `ws_handler` leaves of `s` when its reap leaves `left`. */
  ghost predicate Handled(cfg: Config, s: Server, h: nat, ip: I.IpAddr, tenant: Option<string>, now: real,
                          left: map<I.IpAddr, I.IpState>, s': Server)
  {
    var outcome := Decision(cfg, s.freeSlots, s.freeTenant, tenant, Grants(cfg, left, ip, now));
    && Ends(s, h, s', outcome)
    && s'.freeSlots == s.freeSlots - (if outcome.Admitted? then 1 else 0)
    && s'.freeTenant == PermitsAfter(cfg, s.freeTenant, tenant, outcome)
    && s'.limiter.states == (if cfg.limits.Some? then StatesAfter(cfg.limits.value, left, ip, now, outcome)
                             else s.limiter.states)
  }

  lemma PassedStep(cfg: Config, s: Server, h: nat, now: real)
    requires Enabled(cfg, s, PassIp(h, now))
    requires Grants(cfg, s.limiter.states, s.handshakes[h].ip, now)
    ensures var x := s.handshakes[h].(phase := IpPassed, holdsIp := cfg.limits.Some?);
            Apply(cfg, s, PassIp(h, now))
            == s.(handshakes := s.handshakes[h := x], limiter := LimiterAfter(cfg, s, PassIp(h, now)))
  {
  }

  lemma RefusedStep(cfg: Config, s: Server, h: nat, now: real)
    requires Enabled(cfg, s, PassIp(h, now))
    requires !Grants(cfg, s.limiter.states, s.handshakes[h].ip, now)
    ensures Apply(cfg, s, PassIp(h, now))
         == s.(handshakes := s.handshakes[h := Refuse(s.handshakes[h], ByIp)],
               metrics := CountedFor(s.metrics, ByIp), limiter := LimiterAfter(cfg, s, PassIp(h, now)))
  {
  }

  lemma StatesDecided(cfg: Config, s: Server, h: nat, now: real)
    requires Enabled(cfg, s, PassIp(h, now))
    ensures LimiterAfter(cfg, s, PassIp(h, now)).states ==
            if cfg.limits.Some? then I.Decide(cfg.limits.value, s.limiter.states, s.handshakes[h].ip, now).0
            else s.limiter.states
  {
  }

  ghost predicate Fresh(x: Handshake) {
    x.phase == Arrived && !x.holdsIp && !x.holdsSlot && x.holdsTenant.None? && x.refusal.None? && !x.everOpen
  }

  lemma HandledFrom(cfg: Config, s: Server, h: nat, ip: I.IpAddr, tenant: Option<string>, now: real,
                    asked: Server, s': Server)
    requires h in asked.handshakes && asked.handshakes[h].ip == ip && asked.handshakes[h].holdsIp == cfg.limits.Some?
    requires Grants(cfg, s.limiter.states, ip, now)
    requires asked.limiter.states ==
             if cfg.limits.Some? then I.Decide(cfg.limits.value, s.limiter.states, ip, now).0 else s.limiter.states
    requires var outcome := Decision(cfg, s.freeSlots, s.freeTenant, tenant, true);
             && Ends(s, h, s', outcome)
             && s'.freeSlots == s.freeSlots - (if outcome.Admitted? then 1 else 0)
             && s'.freeTenant == (if s.freeSlots > 0 && tenant.Some? then TakePermit(cfg, s.freeTenant, tenant.value)
                                  else s.freeTenant)
             && s'.limiter == if outcome.Turned? then Returned(asked, h, now) else asked.limiter
    ensures Handled(cfg, s, h, ip, tenant, now, s.limiter.states, s')
  {
  }

  lemma PassedIs(cfg: Config, s: Server, h: nat, tenant: Option<string>, now: real)
    requires Enabled(cfg, s, PassIp(h, now)) && Handling(s, h, now) && Fresh(s.handshakes[h])
    requires Grants(cfg, s.limiter.states, s.handshakes[h].ip, now)
    ensures Handled(cfg, s, h, s.handshakes[h].ip, tenant, now, s.limiter.states, FromIp(cfg, s, h, tenant, now))
  {
    PassStep(cfg, s, h, now);
    PassedStep(cfg, s, h, now);
    StatesDecided(cfg, s, h, now);
    var asked := Apply(cfg, s, PassIp(h, now));
    var s' := FromSlot(cfg, asked, h, tenant, now);
    FromSlotIs(cfg, asked, h, tenant, now);
    EndsThen(s, h, asked.handshakes[h], asked, s', Decision(cfg, s.freeSlots, s.freeTenant, tenant, true));
    HandledFrom(cfg, s, h, s.handshakes[h].ip, tenant, now, asked, s');
  }

  lemma RefusedIs(cfg: Config, s: Server, h: nat, tenant: Option<string>, now: real)
    requires Enabled(cfg, s, PassIp(h, now)) && Handling(s, h, now) && Fresh(s.handshakes[h])
    requires !Grants(cfg, s.limiter.states, s.handshakes[h].ip, now)
    ensures Handled(cfg, s, h, s.handshakes[h].ip, tenant, now, s.limiter.states, FromIp(cfg, s, h, tenant, now))
  {
    PassStep(cfg, s, h, now);
    RefusedStep(cfg, s, h, now);
    StatesDecided(cfg, s, h, now);
    var asked := Apply(cfg, s, PassIp(h, now));
    TurnedAway(cfg, s, h, now, asked, ByIp);
    BackedOutIs(cfg, asked, h, now);
  }

  /** The same from any state that differs by the arrival and the reap. */
  lemma HandledSince(cfg: Config, s: Server, h: nat, ip: I.IpAddr, tenant: Option<string>, now: real,
                     x: Handshake, reaped: Server, s': Server)
    requires reaped.freeSlots == s.freeSlots && reaped.freeTenant == s.freeTenant && reaped.metrics == s.metrics
    requires reaped.handshakes == s.handshakes[h := x]
    requires cfg.limits.None? ==> reaped.limiter.states == s.limiter.states
    requires Handled(cfg, reaped, h, ip, tenant, now, reaped.limiter.states, s')
    ensures Handled(cfg, s, h, ip, tenant, now, reaped.limiter.states, s')
  {
    assert s.handshakes[h := x][h := s'.handshakes[h]] == s.handshakes[h := s'.handshakes[h]];
  }

  lemma ArriveStep(cfg: Config, s: Server, h: nat, ip: I.IpAddr)
    requires h !in s.handshakes
    ensures Enabled(cfg, s, Arrive(h, ip))
    ensures Apply(cfg, s, Arrive(h, ip))
         == s.(handshakes := s.handshakes[h := Handshake(ip, Arrived, false, false, None, None, false)])
  {
  }

  /** Up to the point where the limiter decides. */
  lemma ArrivalRuns(cfg: Config, s: Server, h: nat, ip: I.IpAddr, now: real, left: map<I.IpAddr, I.IpState>)
    returns (es: seq<Event>, reaped: Server)
    requires h !in s.handshakes && s.limiter.clock <= now
    requires if cfg.limits.Some? then h !in s.limiter.reapers && I.Reaped(s.limiter.states, now, left)
             else left == s.limiter.states
    ensures Leads(cfg, s, es, reaped) && reaped.limiter.states == left
    ensures var x := Handshake(ip, Arrived, false, false, None, None, false);
            reaped == s.(handshakes := s.handshakes[h := x], limiter := reaped.limiter)
    ensures Enabled(cfg, reaped, PassIp(h, now)) && reaped.limiter.clock <= now
  {
    ArriveStep(cfg, s, h, ip);
    var arrived := Apply(cfg, s, Arrive(h, ip));
    es, reaped := [], arrived;
    if cfg.limits.Some? {
      var scanning;
      es, scanning := ReapRuns(cfg, arrived, h, now, left);
      reaped := AfterReap(arrived, h, now, left, scanning);
    }
    LeadsFirst(cfg, s, Arrive(h, ip), es, reaped);
    es := [Arrive(h, ip)] + es;
  }

  /** `ws_handler`, undisturbed, is a run of its handshake's steps: the arrival, the reap, the four checks as far as
      they go, and after a refusal the count and the drops. What it leaves is determined. */
  lemma HandlerRuns(cfg: Config, s: Server, h: nat, ip: I.IpAddr, tenant: Option<string>, now: real,
                    left: map<I.IpAddr, I.IpState>)
    returns (es: seq<Event>, s': Server)
    requires h !in s.handshakes && s.limiter.clock <= now
    requires if cfg.limits.Some? then h !in s.limiter.reapers && I.Reaped(s.limiter.states, now, left)
             else left == s.limiter.states
    ensures Leads(cfg, s, es, s') && Handled(cfg, s, h, ip, tenant, now, left, s')
  {
    var arrival, reaped := ArrivalRuns(cfg, s, h, ip, now, left);
    s' := FromIp(cfg, reaped, h, tenant, now);
    if Grants(cfg, left, ip, now) {
      PassedIs(cfg, reaped, h, tenant, now);
    } else {
      RefusedIs(cfg, reaped, h, tenant, now);
    }
    HandledSince(cfg, s, h, ip, tenant, now, reaped.handshakes[h], reaped, s');
    var checks := FromIpRuns(cfg, reaped, h, tenant, now);
    LeadsThen(cfg, s, arrival, reaped, checks, s');
    es := arrival + checks;
  }

  // ----- The way out

  function TenantDropped(cfg: Config, s: Server, h: nat): Server
    requires InPhase(s, h, Leaving)
  {
    if s.handshakes[h].holdsTenant.Some? then Apply(cfg, s, DropTenant(h)) else s
  }

  lemma TenantDropRuns(cfg: Config, s: Server, h: nat) returns (es: seq<Event>)
    requires InPhase(s, h, Leaving)
    ensures Leads(cfg, s, es, TenantDropped(cfg, s, h))
  {
    es := [];
    if s.handshakes[h].holdsTenant.Some? {
      es := [DropTenant(h)];
      LeadsFirst(cfg, s, DropTenant(h), [], TenantDropped(cfg, s, h));
    }
  }

  lemma TenantDroppedIs(cfg: Config, s: Server, h: nat)
    requires InPhase(s, h, Leaving)
    ensures var r := TenantDropped(cfg, s, h);
            InPhase(r, h, Leaving) && r.handshakes[h].holdsTenant.None? && r.limiter == s.limiter
  {
  }

  lemma SlotDroppedIs(cfg: Config, s: Server, h: nat)
    requires InPhase(s, h, Leaving)
    ensures var r := SlotDropped(cfg, s, h);
            && InPhase(r, h, Leaving) && !r.handshakes[h].holdsSlot && r.limiter == s.limiter
            && r.handshakes[h].holdsTenant == s.handshakes[h].holdsTenant
  {
  }

  lemma IpDroppedIs(cfg: Config, s: Server, h: nat, now: real)
    requires InPhase(s, h, Leaving) && s.limiter.clock <= now
    ensures var r := IpDropped(cfg, s, h, now);
            && InPhase(r, h, Leaving) && !r.handshakes[h].holdsIp
            && r.handshakes[h].holdsTenant == s.handshakes[h].holdsTenant
            && r.handshakes[h].holdsSlot == s.handshakes[h].holdsSlot
  {
  }

  lemma DropsRun(cfg: Config, s: Server, h: nat, now: real) returns (es: seq<Event>, s': Server)
    requires InPhase(s, h, Leaving) && s.limiter.clock <= now
    ensures Leads(cfg, s, es, s') && h in s'.handshakes && Gone(s'.handshakes[h])
  {
    TenantDroppedIs(cfg, s, h);
    var s1 := TenantDropped(cfg, s, h);
    var tenants := TenantDropRuns(cfg, s, h);
    var rest;
    rest, s' := SlotsAndIpRun(cfg, s1, h, now);
    LeadsThen(cfg, s, tenants, s1, rest, s');
    es := tenants + rest;
  }

  lemma SlotsAndIpRun(cfg: Config, s: Server, h: nat, now: real) returns (es: seq<Event>, s': Server)
    requires InPhase(s, h, Leaving) && s.limiter.clock <= now && s.handshakes[h].holdsTenant.None?
    ensures Leads(cfg, s, es, s') && h in s'.handshakes && Gone(s'.handshakes[h])
  {
    SlotDroppedIs(cfg, s, h);
    var s1 := SlotDropped(cfg, s, h);
    IpDroppedIs(cfg, s1, h, now);
    s' := IpDropped(cfg, s1, h, now);
    var slots := SlotDropRuns(cfg, s, h);
    var ips := IpDropRuns(cfg, s1, h, now);
    LeadsThen(cfg, s, slots, s1, ips, s');
    es := slots + ips;
  }

  lemma CloseStep(cfg: Config, s: Server, h: nat)
    requires InPhase(s, h, Open)
    ensures Enabled(cfg, s, Close(h)) && InPhase(Apply(cfg, s, Close(h)), h, Leaving)
    ensures Apply(cfg, s, Close(h)).limiter == s.limiter
  {
  }

  lemma UpgradeStep(cfg: Config, s: Server, h: nat, ok: bool)
    requires InPhase(s, h, Upgrading)
    ensures Enabled(cfg, s, Upgrade(h, ok))
    ensures InPhase(Apply(cfg, s, Upgrade(h, ok)), h, if ok then Open else Leaving)
    ensures Apply(cfg, s, Upgrade(h, ok)).limiter == s.limiter
  {
  }

  /** An admitted handshake, whether its upgrade fails or it is served and closed, can always go, and has then dropped
      everything. */
  lemma AdmittedLeaves(cfg: Config, s: Server, h: nat, ok: bool, now: real) returns (es: seq<Event>, s': Server)
    requires InPhase(s, h, Upgrading) && s.limiter.clock <= now
    ensures Leads(cfg, s, es, s') && h in s'.handshakes && Gone(s'.handshakes[h])
  {
    UpgradeStep(cfg, s, h, ok);
    var upgraded := Apply(cfg, s, Upgrade(h, ok));
    if ok {
      CloseStep(cfg, upgraded, h);
      es, s' := DropsRun(cfg, Apply(cfg, upgraded, Close(h)), h, now);
      LeadsFirst(cfg, upgraded, Close(h), es, s');
      es := [Close(h)] + es;
    } else {
      es, s' := DropsRun(cfg, upgraded, h, now);
    }
    LeadsFirst(cfg, s, Upgrade(h, ok), es, s');
    es := [Upgrade(h, ok)] + es;
  }
}
