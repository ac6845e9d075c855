/** The handshake of src/server.rs as many clients run it at once: IP permit, global slot, authentication,
    tenant slot, upgrade, connection, and the way out. Permits are dropped one at a time, in any order, and a
    refusal moves its own counter before the common one, so every state in between is a state here. */
module Handshakes {
  import opened Options
  import I = IpLimiters

  datatype Config = Config(limits: Option<I.Limits>, maxConnections: nat, tenantCap: Option<nat>)

  datatype Reason = ByIp | ByCapacity | ByAuth | ByTenant

  datatype Phase =
    | Arrived
    | IpPassed
    | SlotTaken
    | Identified(tenant: string)
    | Upgrading
    | Open
    | Refused(reason: Reason)
    | Leaving

  datatype Handshake = Handshake(ip: I.IpAddr, phase: Phase, holdsIp: bool, holdsSlot: bool,
                                 holdsTenant: Option<string>, refusal: Option<Reason>, everOpen: bool)

  datatype Metrics = Metrics(active: int, accepted: nat, rejected: nat, authRejected: nat, ipRejected: nat,
                             tenantRejected: nat)

  /** `freeTenant` has the semaphores created so far; a tenant not in it has never been seen. */
  datatype Server = Server(limiter: I.Limiter, freeSlots: nat, freeTenant: map<string, nat>,
                           handshakes: map<nat, Handshake>, metrics: Metrics)

  /** A handshake reaps under its own number. Authentication is whatever the verifier says. */
  datatype Event =
    | Arrive(h: nat, ip: I.IpAddr)
    | Reap(e: I.Event)
    | PassIp(h: nat, at: real)
    | TakeSlot(h: nat)
    | Authenticate(h: nat, tenant: Option<string>)
    | TakeTenant(h: nat)
    | CountRefusal(h: nat)
    | Upgrade(h: nat, ok: bool)
    | Close(h: nat)
    | DropIp(h: nat, at: real)
    | DropSlot(h: nat)
    | DropTenant(h: nat)

  predicate InPhase(s: Server, h: nat, p: Phase) {
    h in s.handshakes && s.handshakes[h].phase == p
  }

  /** What the handshake itself must have reached. */
  predicate Ready(s: Server, e: Event) {
    match e
    case Arrive(h, _) => h !in s.handshakes
    case Reap(r) => !r.Attempt? && !r.Release? && InPhase(s, r.thread, Arrived)
    case PassIp(h, _) => InPhase(s, h, Arrived)
    case TakeSlot(h) => InPhase(s, h, IpPassed)
    case Authenticate(h, _) => InPhase(s, h, SlotTaken)
    case TakeTenant(h) => h in s.handshakes && s.handshakes[h].phase.Identified?
    case CountRefusal(h) => h in s.handshakes && s.handshakes[h].phase.Refused?
    case Upgrade(h, _) => InPhase(s, h, Upgrading)
    case Close(h) => InPhase(s, h, Open)
    case DropIp(h, _) => InPhase(s, h, Leaving) && s.handshakes[h].holdsIp
    case DropSlot(h) => InPhase(s, h, Leaving) && s.handshakes[h].holdsSlot
    case DropTenant(h) => InPhase(s, h, Leaving) && s.handshakes[h].holdsTenant.Some?
  }

  predicate Enabled(cfg: Config, s: Server, e: Event) {
    && Ready(s, e)
    && match e
       case Reap(r) => cfg.limits.Some? && I.Enabled(s.limiter, r)
       case PassIp(h, at) => cfg.limits.Some? ==> I.Enabled(s.limiter, I.Attempt(h, s.handshakes[h].ip, at))
       case DropIp(_, at) => s.limiter.clock <= at
       case _ => true
  }

  function LimiterAfter(cfg: Config, s: Server, e: Event): I.Limiter
    requires Enabled(cfg, s, e)
  {
    match e
    case Reap(r) => I.Apply(cfg.limits.value, s.limiter, r)
    case PassIp(h, at) =>
      if cfg.limits.None? then s.limiter
      else I.Apply(cfg.limits.value, s.limiter, I.Attempt(h, s.handshakes[h].ip, at))
    case DropIp(h, at) => I.DropPermit(s.limiter, s.handshakes[h].ip, at)
    case _ => s.limiter
  }

  function IpGrants(cfg: Config, s: Server, e: Event): bool
    requires Enabled(cfg, s, e)
  {
    e.PassIp? && cfg.limits.Some? ==>
      I.Decide(cfg.limits.value, s.limiter.states, s.handshakes[e.h].ip, e.at).1.Granted?
  }

  function Apply(cfg: Config, s: Server, e: Event): Server
    requires Enabled(cfg, s, e)
  {
    Place(cfg, s, e, IpGrants(cfg, s, e), LimiterAfter(cfg, s, e))
  }

  function TenantFree(cfg: Config, freeTenant: map<string, nat>, tenant: string): nat {
    if tenant in freeTenant then freeTenant[tenant] else if cfg.tenantCap.Some? then cfg.tenantCap.value else 0
  }

  predicate TenantFull(cfg: Config, freeTenant: map<string, nat>, tenant: string) {
    cfg.tenantCap.Some? && TenantFree(cfg, freeTenant, tenant) == 0
  }

  function Refuse(x: Handshake, reason: Reason): Handshake {
    x.(phase := Refused(reason), refusal := Some(reason))
  }

  /** The handshake that a step moves, afterwards; `granted` is the IP limiter's answer. */
  function Next(cfg: Config, s: Server, e: Event, granted: bool): Handshake
    requires Ready(s, e) && !e.Reap?
  {
    match e
    case Arrive(_, ip) => Handshake(ip, Arrived, false, false, None, None, false)
    case PassIp(h, _) =>
      var x := s.handshakes[h];
      if granted then x.(phase := IpPassed, holdsIp := cfg.limits.Some?) else Refuse(x, ByIp)
    case TakeSlot(h) =>
      var x := s.handshakes[h];
      if s.freeSlots > 0 then x.(phase := SlotTaken, holdsSlot := true) else Refuse(x, ByCapacity)
    case Authenticate(h, tenant) =>
      var x := s.handshakes[h];
      if tenant.Some? then x.(phase := Identified(tenant.value)) else Refuse(x, ByAuth)
    case TakeTenant(h) =>
      var x := s.handshakes[h];
      if TenantFull(cfg, s.freeTenant, x.phase.tenant) then Refuse(x, ByTenant)
      else x.(phase := Upgrading, holdsTenant := if cfg.tenantCap.Some? then Some(x.phase.tenant) else None)
    case CountRefusal(h) => s.handshakes[h].(phase := Leaving)
    case Upgrade(h, ok) =>
      if ok then s.handshakes[h].(phase := Open, everOpen := true) else s.handshakes[h].(phase := Leaving)
    case Close(h) => s.handshakes[h].(phase := Leaving)
    case DropIp(h, _) => s.handshakes[h].(holdsIp := false)
    case DropSlot(h) => s.handshakes[h].(holdsSlot := false)
    case DropTenant(h) => s.handshakes[h].(holdsTenant := None)
  }

  function SlotsAfter(s: Server, e: Event): nat {
    if e.TakeSlot? && s.freeSlots > 0 then s.freeSlots - 1
    else if e.DropSlot? then s.freeSlots + 1
    else s.freeSlots
  }

  /** A tenant's semaphore comes into being, full, when it is first asked for a permit. */
  function TakePermit(cfg: Config, freeTenant: map<string, nat>, tenant: string): map<string, nat> {
    var free := TenantFree(cfg, freeTenant, tenant);
    if cfg.tenantCap.None? then freeTenant else freeTenant[tenant := if free > 0 then free - 1 else 0]
  }

  function TenantsAfter(cfg: Config, s: Server, e: Event): map<string, nat>
    requires Ready(s, e)
  {
    if e.TakeTenant? then TakePermit(cfg, s.freeTenant, s.handshakes[e.h].phase.tenant)
    else if e.DropTenant? then
      var tenant := s.handshakes[e.h].holdsTenant.value;
      s.freeTenant[tenant := TenantFree(cfg, s.freeTenant, tenant) + 1]
    else s.freeTenant
  }

  /** The counter a refusal moves before the common one; there is none for capacity. */
  function CountedFor(m: Metrics, reason: Reason): Metrics {
    match reason
    case ByIp => m.(ipRejected := m.ipRejected + 1)
    case ByCapacity => m
    case ByAuth => m.(authRejected := m.authRejected + 1)
    case ByTenant => m.(tenantRejected := m.tenantRejected + 1)
  }

  function MetricsAfter(cfg: Config, s: Server, e: Event, granted: bool): Metrics
    requires Ready(s, e)
  {
    var m := s.metrics;
    match e
    case PassIp(_, _) => if granted then m else CountedFor(m, ByIp)
    case Authenticate(_, tenant) => if tenant.Some? then m else CountedFor(m, ByAuth)
    case TakeTenant(h) =>
      if TenantFull(cfg, s.freeTenant, s.handshakes[h].phase.tenant) then CountedFor(m, ByTenant) else m
    case CountRefusal(_) => m.(rejected := m.rejected + 1)
    case Upgrade(_, ok) => if ok then m.(active := m.active + 1, accepted := m.accepted + 1) else m
    case Close(_) => m.(active := m.active - 1)
    case _ => m
  }

  /** The bookkeeping of a step, given the IP limiter's answer and its state afterwards. */
  function Place(cfg: Config, s: Server, e: Event, granted: bool, limiter: I.Limiter): Server
    requires Ready(s, e)
  {
    Server(limiter, SlotsAfter(s, e), TenantsAfter(cfg, s, e),
           if e.Reap? then s.handshakes else s.handshakes[e.h := Next(cfg, s, e, granted)],
           MetricsAfter(cfg, s, e, granted))
  }

  function Start(cfg: Config): Server {
    Server(I.IDLE, cfg.maxConnections, map[], map[], Metrics(0, 0, 0, 0, 0, 0))
  }

  /** Where a run leads; `None` if some step was not possible when its turn came. */
  ghost function Run(cfg: Config, es: seq<Event>): Option<Server> {
    if es == [] then Some(Start(cfg))
    else
      var before := Run(cfg, es[..|es| - 1]);
      var e := es[|es| - 1];
      if before.Some? && Enabled(cfg, before.value, e) then Some(Apply(cfg, before.value, e)) else None
  }

  // ----- Counting handshakes

  ghost function Members(hs: map<nat, Handshake>, p: Handshake -> bool): set<nat> {
    set h | h in hs && p(hs[h])
  }

  ghost function Count(hs: map<nat, Handshake>, p: Handshake -> bool): nat {
    |Members(hs, p)|
  }

  lemma SizeWithout(members: set<nat>, h: nat)
    ensures |members| == |members - {h}| + if h in members then 1 else 0
  {
    assert h in members ==> members == (members - {h}) + {h};
    assert h !in members ==> members == members - {h};
  }

  lemma MembersMoved(hs: map<nat, Handshake>, h: nat, x: Handshake, p: Handshake -> bool)
    ensures Members(hs[h := x], p) - {h} == Members(hs, p) - {h}
    ensures h in Members(hs[h := x], p) <==> p(x)
    ensures h in Members(hs, p) <==> h in hs && p(hs[h])
  {
  }

  lemma CountMoved(hs: map<nat, Handshake>, h: nat, x: Handshake, p: Handshake -> bool)
    ensures Count(hs[h := x], p)
         == Count(hs, p) - (if h in hs && p(hs[h]) then 1 else 0) + (if p(x) then 1 else 0)
  {
    MembersMoved(hs, h, x, p);
    SizeWithout(Members(hs, p), h);
    SizeWithout(Members(hs[h := x], p), h);
  }

  lemma CountSplits(hs: map<nat, Handshake>, p: Handshake -> bool, q: Handshake -> bool, r: Handshake -> bool)
    requires forall h | h in hs :: (p(hs[h]) <==> q(hs[h]) || r(hs[h])) && !(q(hs[h]) && r(hs[h]))
    ensures Count(hs, p) == Count(hs, q) + Count(hs, r)
  {
    assert Members(hs, p) == Members(hs, q) + Members(hs, r);
    assert Members(hs, q) !! Members(hs, r);
  }

  lemma CountWithin(hs: map<nat, Handshake>, p: Handshake -> bool, q: Handshake -> bool)
    requires forall h | h in hs :: p(hs[h]) ==> q(hs[h])
    ensures Count(hs, p) <= Count(hs, q)
  {
    assert Members(hs, q) == Members(hs, p) + (Members(hs, q) - Members(hs, p));
  }

  ghost function HoldsSlot(): Handshake -> bool { (x: Handshake) => x.holdsSlot }
  ghost function HoldsTenant(tenant: string): Handshake -> bool { (x: Handshake) => x.holdsTenant == Some(tenant) }
  ghost function HoldsIp(ip: I.IpAddr): Handshake -> bool { (x: Handshake) => x.holdsIp && x.ip == ip }
  ghost function IsOpen(): Handshake -> bool { (x: Handshake) => x.phase == Open }
  ghost function EverOpen(): Handshake -> bool { (x: Handshake) => x.everOpen }
  ghost function RefusedFor(reason: Reason): Handshake -> bool { (x: Handshake) => x.refusal == Some(reason) }
  ghost function RefusedForEither(a: Reason, b: Reason): Handshake -> bool {
    (x: Handshake) => x.refusal == Some(a) || x.refusal == Some(b)
  }
  ghost function RefusedAtAll(): Handshake -> bool { (x: Handshake) => x.refusal.Some? }
  ghost function Counted(): Handshake -> bool { (x: Handshake) => x.refusal.Some? && x.phase == Leaving }
  ghost function Uncounted(): Handshake -> bool { (x: Handshake) => x.phase.Refused? }

  // ----- The invariant

  /** What a handshake holds in each phase. On the way out it may hold anything it has not dropped yet. */
  ghost predicate Sound(cfg: Config, x: Handshake) {
    var ip := cfg.limits.Some?;
    && (x.holdsIp ==> ip) && (x.holdsTenant.Some? ==> cfg.tenantCap.Some?)
    && match x.phase
       case Arrived => !x.holdsIp && !x.holdsSlot && x.holdsTenant.None? && x.refusal.None? && !x.everOpen
       case IpPassed => x.holdsIp == ip && !x.holdsSlot && x.holdsTenant.None? && x.refusal.None? && !x.everOpen
       case SlotTaken => x.holdsIp == ip && x.holdsSlot && x.holdsTenant.None? && x.refusal.None? && !x.everOpen
       case Identified(_) => x.holdsIp == ip && x.holdsSlot && x.holdsTenant.None? && x.refusal.None? && !x.everOpen
       case Upgrading =>
         x.holdsIp == ip && x.holdsSlot && x.holdsTenant.Some? == cfg.tenantCap.Some? && x.refusal.None? && !x.everOpen
       case Open =>
         x.holdsIp == ip && x.holdsSlot && x.holdsTenant.Some? == cfg.tenantCap.Some? && x.refusal.None? && x.everOpen
       case Refused(reason) =>
         && x.refusal == Some(reason) && x.holdsTenant.None? && !x.everOpen
         && x.holdsIp == (ip && reason != ByIp) && x.holdsSlot == (reason == ByAuth || reason == ByTenant)
       case Leaving => x.refusal.Some? ==> !x.everOpen
  }

  ghost predicate SlotsConserved(cfg: Config, s: Server) {
    s.freeSlots + Count(s.handshakes, HoldsSlot()) == cfg.maxConnections
  }

  ghost predicate TenantConserved(cfg: Config, s: Server, tenant: string) {
    cfg.tenantCap.Some? ==>
      TenantFree(cfg, s.freeTenant, tenant) + Count(s.handshakes, HoldsTenant(tenant)) == cfg.tenantCap.value
  }

  ghost predicate IpConserved(cfg: Config, s: Server) {
    && (cfg.limits.Some? ==> I.Conserved(cfg.limits.value, s.limiter))
    && forall ip :: s.limiter.live[ip] == Count(s.handshakes, HoldsIp(ip))
  }

  ghost predicate MetricsExact(s: Server) {
    && s.metrics.active == Count(s.handshakes, IsOpen())
    && s.metrics.accepted == Count(s.handshakes, EverOpen())
    && s.metrics.rejected == Count(s.handshakes, Counted())
    && s.metrics.ipRejected == Count(s.handshakes, RefusedFor(ByIp))
    && s.metrics.authRejected == Count(s.handshakes, RefusedFor(ByAuth))
    && s.metrics.tenantRejected == Count(s.handshakes, RefusedFor(ByTenant))
  }

  ghost predicate Inv(cfg: Config, s: Server) {
    && (forall h | h in s.handshakes :: Sound(cfg, s.handshakes[h]))
    && SlotsConserved(cfg, s)
    && (forall tenant :: TenantConserved(cfg, s, tenant))
    && IpConserved(cfg, s)
    && MetricsExact(s)
  }

  /** A step moves one handshake at most. */
  ghost predicate Moves(s: Server, e: Event, s': Server) {
    if e.Reap? then s'.handshakes == s.handshakes
    else e.h in s'.handshakes && s'.handshakes == s.handshakes[e.h := s'.handshakes[e.h]]
  }

  ghost function Tally(s: Server, e: Event, p: Handshake -> bool): nat {
    if !e.Reap? && e.h in s.handshakes && p(s.handshakes[e.h]) then 1 else 0
  }

  lemma CountStep(s: Server, e: Event, s': Server, p: Handshake -> bool)
    requires Moves(s, e, s')
    ensures Count(s'.handshakes, p) - Tally(s', e, p) == Count(s.handshakes, p) - Tally(s, e, p)
  {
    if !e.Reap? {
      CountMoved(s.handshakes, e.h, s'.handshakes[e.h], p);
    }
  }

  ghost predicate MoverSound(cfg: Config, s: Server, e: Event) {
    !e.Reap? && e.h in s.handshakes ==> Sound(cfg, s.handshakes[e.h])
  }

  lemma SoundStep(cfg: Config, s: Server, e: Event, granted: bool, limiter: I.Limiter)
    requires Ready(s, e) && MoverSound(cfg, s, e)
    ensures Moves(s, e, Place(cfg, s, e, granted, limiter))
    ensures !e.Reap? ==> Sound(cfg, Place(cfg, s, e, granted, limiter).handshakes[e.h])
  {
  }

  lemma SlotsStep(cfg: Config, s: Server, e: Event, granted: bool, limiter: I.Limiter)
    requires Ready(s, e) && MoverSound(cfg, s, e)
    ensures var s' := Place(cfg, s, e, granted, limiter);
            s'.freeSlots + Tally(s', e, HoldsSlot()) == s.freeSlots + Tally(s, e, HoldsSlot())
  {
  }

  lemma TenantStep(cfg: Config, s: Server, e: Event, granted: bool, limiter: I.Limiter, tenant: string)
    requires Ready(s, e) && cfg.tenantCap.Some? && MoverSound(cfg, s, e)
    ensures var s' := Place(cfg, s, e, granted, limiter);
            TenantFree(cfg, s'.freeTenant, tenant) + Tally(s', e, HoldsTenant(tenant))
            == TenantFree(cfg, s.freeTenant, tenant) + Tally(s, e, HoldsTenant(tenant))
  {
  }

  lemma ActiveStep(cfg: Config, s: Server, e: Event, granted: bool, limiter: I.Limiter)
    requires Ready(s, e) && MoverSound(cfg, s, e)
    ensures var s' := Place(cfg, s, e, granted, limiter);
            s'.metrics.active - Tally(s', e, IsOpen()) == s.metrics.active - Tally(s, e, IsOpen())
  {
  }

  lemma AcceptedStep(cfg: Config, s: Server, e: Event, granted: bool, limiter: I.Limiter)
    requires Ready(s, e) && MoverSound(cfg, s, e)
    ensures var s' := Place(cfg, s, e, granted, limiter);
            s'.metrics.accepted - Tally(s', e, EverOpen()) == s.metrics.accepted - Tally(s, e, EverOpen())
  {
  }

  lemma RejectedStep(cfg: Config, s: Server, e: Event, granted: bool, limiter: I.Limiter)
    requires Ready(s, e) && MoverSound(cfg, s, e)
    ensures var s' := Place(cfg, s, e, granted, limiter);
            s'.metrics.rejected - Tally(s', e, Counted()) == s.metrics.rejected - Tally(s, e, Counted())
  {
  }

  /** The counter of one cause; refusals for capacity have none of their own. */
  function Refusals(m: Metrics, reason: Reason): nat
    requires reason != ByCapacity
  {
    match reason case ByIp => m.ipRejected case ByAuth => m.authRejected case ByTenant => m.tenantRejected
  }

  lemma RefusalStep(cfg: Config, s: Server, e: Event, granted: bool, limiter: I.Limiter, reason: Reason)
    requires Ready(s, e) && MoverSound(cfg, s, e) && reason != ByCapacity
    ensures var s' := Place(cfg, s, e, granted, limiter);
            Refusals(s'.metrics, reason) - Tally(s', e, RefusedFor(reason))
            == Refusals(s.metrics, reason) - Tally(s, e, RefusedFor(reason))
  {
  }

  /** How many permits of `ip` a step adds. */
  function PermitsTaken(cfg: Config, s: Server, e: Event, granted: bool, ip: I.IpAddr): int
    requires Ready(s, e)
  {
    if e.PassIp? && cfg.limits.Some? && granted && s.handshakes[e.h].ip == ip then 1
    else if e.DropIp? && s.handshakes[e.h].ip == ip then -1
    else 0
  }

  lemma LimiterPermits(cfg: Config, s: Server, e: Event, ip: I.IpAddr)
    requires Enabled(cfg, s, e) && (e.DropIp? ==> s.handshakes[e.h].ip in s.limiter.live)
    ensures LimiterAfter(cfg, s, e).live[ip] == s.limiter.live[ip] + PermitsTaken(cfg, s, e, IpGrants(cfg, s, e), ip)
  {
  }

  lemma HolderPermits(cfg: Config, s: Server, e: Event, granted: bool, limiter: I.Limiter, ip: I.IpAddr)
    requires Ready(s, e) && MoverSound(cfg, s, e)
    ensures var s' := Place(cfg, s, e, granted, limiter);
            && s'.limiter == limiter
            && Tally(s', e, HoldsIp(ip)) == Tally(s, e, HoldsIp(ip)) + PermitsTaken(cfg, s, e, granted, ip)
  {
  }

  lemma LimiterStep(cfg: Config, s: Server, e: Event)
    requires Enabled(cfg, s, e) && cfg.limits.Some? && I.Conserved(cfg.limits.value, s.limiter)
    requires e.DropIp? ==> s.handshakes[e.h].ip in s.limiter.live
    ensures I.Conserved(cfg.limits.value, LimiterAfter(cfg, s, e))
  {
    match e
    case Reap(r) => I.StepConserves(cfg.limits.value, s.limiter, r);
    case PassIp(h, at) => I.StepConserves(cfg.limits.value, s.limiter, I.Attempt(h, s.handshakes[h].ip, at));
    case DropIp(h, at) => I.StepConserves(cfg.limits.value, s.limiter, I.Release(s.handshakes[h].ip, at));
    case _ =>
  }

  lemma HolderIsLive(cfg: Config, s: Server, h: nat)
    requires Inv(cfg, s) && h in s.handshakes && s.handshakes[h].holdsIp
    ensures s.handshakes[h].ip in s.limiter.live
  {
    var ip := s.handshakes[h].ip;
    assert h in Members(s.handshakes, HoldsIp(ip));
    assert s.limiter.live[ip] == Count(s.handshakes, HoldsIp(ip)) > 0;
  }

  /** The limiter's live permits change with the handshakes that hold one. */
  lemma LiveStep(cfg: Config, s: Server, e: Event, ip: I.IpAddr)
    requires Enabled(cfg, s, e) && MoverSound(cfg, s, e)
    requires e.DropIp? ==> s.handshakes[e.h].ip in s.limiter.live
    requires s.limiter.live[ip] == Count(s.handshakes, HoldsIp(ip))
    ensures Apply(cfg, s, e).limiter.live[ip] == Count(Apply(cfg, s, e).handshakes, HoldsIp(ip))
  {
    var granted, limiter := IpGrants(cfg, s, e), LimiterAfter(cfg, s, e);
    LimiterPermits(cfg, s, e, ip);
    HolderPermits(cfg, s, e, granted, limiter, ip);
    SoundStep(cfg, s, e, granted, limiter);
    CountStep(s, e, Place(cfg, s, e, granted, limiter), HoldsIp(ip));
  }

  lemma IpInv(cfg: Config, s: Server, e: Event)
    requires Inv(cfg, s) && Enabled(cfg, s, e)
    ensures IpConserved(cfg, Apply(cfg, s, e))
  {
    var s' := Apply(cfg, s, e);
    if e.DropIp? { HolderIsLive(cfg, s, e.h); }
    if cfg.limits.Some? { LimiterStep(cfg, s, e); }
    forall ip ensures s'.limiter.live[ip] == Count(s'.handshakes, HoldsIp(ip)) {
      LiveStep(cfg, s, e, ip);
    }
    PlaceKeepsLimiter(cfg, s, e);
  }

  lemma PlaceKeepsLimiter(cfg: Config, s: Server, e: Event)
    requires Enabled(cfg, s, e)
    ensures Apply(cfg, s, e).limiter == LimiterAfter(cfg, s, e)
  {
  }

  lemma SlotsInv(cfg: Config, s: Server, e: Event, granted: bool, limiter: I.Limiter)
    requires Inv(cfg, s) && Ready(s, e)
    ensures var s' := Place(cfg, s, e, granted, limiter);
            SlotsConserved(cfg, s') && forall tenant :: TenantConserved(cfg, s', tenant)
  {
    var s' := Place(cfg, s, e, granted, limiter);
    SoundStep(cfg, s, e, granted, limiter);
    SlotsStep(cfg, s, e, granted, limiter);
    CountStep(s, e, s', HoldsSlot());
    forall tenant ensures TenantConserved(cfg, s', tenant) {
      assert TenantConserved(cfg, s, tenant);
      if cfg.tenantCap.Some? { TenantStep(cfg, s, e, granted, limiter, tenant); }
      CountStep(s, e, s', HoldsTenant(tenant));
    }
  }

  lemma GaugesInv(cfg: Config, s: Server, e: Event, granted: bool, limiter: I.Limiter)
    requires Ready(s, e) && MoverSound(cfg, s, e) && MetricsExact(s)
    ensures var s' := Place(cfg, s, e, granted, limiter);
            && s'.metrics.active == Count(s'.handshakes, IsOpen())
            && s'.metrics.accepted == Count(s'.handshakes, EverOpen())
            && s'.metrics.rejected == Count(s'.handshakes, Counted())
  {
    var s' := Place(cfg, s, e, granted, limiter);
    SoundStep(cfg, s, e, granted, limiter);
    ActiveStep(cfg, s, e, granted, limiter);
    AcceptedStep(cfg, s, e, granted, limiter);
    RejectedStep(cfg, s, e, granted, limiter);
    CountStep(s, e, s', IsOpen());
    CountStep(s, e, s', EverOpen());
    CountStep(s, e, s', Counted());
  }

  lemma RefusalsInv(cfg: Config, s: Server, e: Event, granted: bool, limiter: I.Limiter, reason: Reason)
    requires Ready(s, e) && MoverSound(cfg, s, e) && MetricsExact(s) && reason != ByCapacity
    ensures var s' := Place(cfg, s, e, granted, limiter);
            Refusals(s'.metrics, reason) == Count(s'.handshakes, RefusedFor(reason))
  {
    SoundStep(cfg, s, e, granted, limiter);
    RefusalStep(cfg, s, e, granted, limiter, reason);
    CountStep(s, e, Place(cfg, s, e, granted, limiter), RefusedFor(reason));
  }

  lemma MetricsInv(cfg: Config, s: Server, e: Event, granted: bool, limiter: I.Limiter)
    requires Ready(s, e) && MoverSound(cfg, s, e) && MetricsExact(s)
    ensures MetricsExact(Place(cfg, s, e, granted, limiter))
  {
    GaugesInv(cfg, s, e, granted, limiter);
    RefusalsInv(cfg, s, e, granted, limiter, ByIp);
    RefusalsInv(cfg, s, e, granted, limiter, ByAuth);
    RefusalsInv(cfg, s, e, granted, limiter, ByTenant);
  }

  lemma SoundInv(cfg: Config, s: Server, e: Event, granted: bool, limiter: I.Limiter)
    requires Inv(cfg, s) && Ready(s, e)
    ensures var s' := Place(cfg, s, e, granted, limiter); forall h | h in s'.handshakes :: Sound(cfg, s'.handshakes[h])
  {
    SoundStep(cfg, s, e, granted, limiter);
  }

  lemma InvStep(cfg: Config, s: Server, e: Event)
    requires Inv(cfg, s) && Enabled(cfg, s, e)
    ensures Inv(cfg, Apply(cfg, s, e))
  {
    var granted, limiter := IpGrants(cfg, s, e), LimiterAfter(cfg, s, e);
    SoundInv(cfg, s, e, granted, limiter);
    SlotsInv(cfg, s, e, granted, limiter);
    IpInv(cfg, s, e);
    MetricsInv(cfg, s, e, granted, limiter);
  }

  /** In every reachable state of any number of interleaved handshakes. */
  lemma {:induction false} RunKeepsInv(cfg: Config, es: seq<Event>)
    requires Run(cfg, es).Some?
    ensures Inv(cfg, Run(cfg, es).value)
  {
    if es == [] {
      StartInv(cfg);
    } else {
      RunKeepsInv(cfg, es[..|es| - 1]);
      InvStep(cfg, Run(cfg, es[..|es| - 1]).value, es[|es| - 1]);
    }
  }

  lemma StartInv(cfg: Config)
    ensures Inv(cfg, Start(cfg))
  {
  }

  // ----- What follows from it

  /** The caps hold for holders, and so for open connections. */
  lemma CapsHold(cfg: Config, es: seq<Event>, tenant: string, ip: I.IpAddr)
    requires Run(cfg, es).Some?
    ensures var s := Run(cfg, es).value;
            && 0 <= s.metrics.active <= Count(s.handshakes, HoldsSlot()) <= cfg.maxConnections
            && (cfg.tenantCap.Some? ==> Count(s.handshakes, HoldsTenant(tenant)) <= cfg.tenantCap.value)
            && (cfg.limits.Some? && cfg.limits.value.maxConcurrent.Some? ==>
                  Count(s.handshakes, HoldsIp(ip)) <= cfg.limits.value.maxConcurrent.value)
  {
    RunKeepsInv(cfg, es);
    var s := Run(cfg, es).value;
    assert TenantConserved(cfg, s, tenant);
    if cfg.limits.Some? {
      assert I.EntryConserved(cfg.limits.value, I.Lookup(s.limiter.states, ip), s.limiter.live[ip], s.limiter.clock);
    }
    CountWithin(s.handshakes, IsOpen(), HoldsSlot());
  }

  /** The common rejection counter lags behind the four causes by the refusals still to be counted. */
  lemma RejectionsAddUp(cfg: Config, es: seq<Event>)
    requires Run(cfg, es).Some?
    ensures var s := Run(cfg, es).value;
            s.metrics.rejected + Count(s.handshakes, Uncounted())
              == s.metrics.ipRejected + s.metrics.authRejected + s.metrics.tenantRejected
                 + Count(s.handshakes, RefusedFor(ByCapacity))
  {
    RunKeepsInv(cfg, es);
    RefusalsSplit(cfg, Run(cfg, es).value.handshakes);
  }

  lemma RefusalsSplit(cfg: Config, hs: map<nat, Handshake>)
    requires forall h | h in hs :: Sound(cfg, hs[h])
    ensures Count(hs, Counted()) + Count(hs, Uncounted())
         == Count(hs, RefusedFor(ByIp)) + Count(hs, RefusedFor(ByCapacity))
            + Count(hs, RefusedFor(ByAuth)) + Count(hs, RefusedFor(ByTenant))
  {
    var byHost := RefusedForEither(ByIp, ByCapacity);
    var byName := RefusedForEither(ByAuth, ByTenant);
    forall h | h in hs
      ensures RefusedAtAll()(hs[h]) <==> byHost(hs[h]) || byName(hs[h])
      ensures RefusedAtAll()(hs[h]) <==> Counted()(hs[h]) || Uncounted()(hs[h])
      ensures !(Counted()(hs[h]) && Uncounted()(hs[h]))
    {
      assert Sound(cfg, hs[h]);
      if hs[h].refusal.Some? {
        match hs[h].refusal.value
        case ByIp => case ByCapacity => case ByAuth => case ByTenant =>
      }
    }
    CountSplits(hs, RefusedAtAll(), Counted(), Uncounted());
    CountSplits(hs, RefusedAtAll(), byHost, byName);
    CountSplits(hs, byHost, RefusedFor(ByIp), RefusedFor(ByCapacity));
    CountSplits(hs, byName, RefusedFor(ByAuth), RefusedFor(ByTenant));
  }

  predicate Gone(x: Handshake) {
    x.phase == Leaving && !x.holdsIp && !x.holdsSlot && x.holdsTenant.None?
  }

  /** Once every handshake, refused, failed or served, has dropped what it held, nothing is missing. */
  lemma EverythingComesBack(cfg: Config, es: seq<Event>, tenant: string)
    requires Run(cfg, es).Some?
    requires forall h | h in Run(cfg, es).value.handshakes :: Gone(Run(cfg, es).value.handshakes[h])
    ensures var s := Run(cfg, es).value;
            && s.freeSlots == cfg.maxConnections && s.limiter.live == multiset{} && s.metrics.active == 0
            && (cfg.tenantCap.Some? ==> TenantFree(cfg, s.freeTenant, tenant) == cfg.tenantCap.value)
            && (forall ip | ip in s.limiter.states && cfg.limits.Some? :: s.limiter.states[ip].concurrent == 0)
  {
    RunKeepsInv(cfg, es);
    var s := Run(cfg, es).value;
    NoneCounted(s.handshakes, HoldsSlot());
    NoneCounted(s.handshakes, HoldsTenant(tenant));
    NoneCounted(s.handshakes, IsOpen());
    assert TenantConserved(cfg, s, tenant);
    forall ip ensures s.limiter.live[ip] == 0 {
      NoneCounted(s.handshakes, HoldsIp(ip));
    }
    forall ip | ip in s.limiter.states && cfg.limits.Some? ensures s.limiter.states[ip].concurrent == 0 {
      assert I.EntryConserved(cfg.limits.value, I.Lookup(s.limiter.states, ip), s.limiter.live[ip], s.limiter.clock);
    }
  }

  lemma NoneCounted(hs: map<nat, Handshake>, p: Handshake -> bool)
    requires forall h | h in hs :: !p(hs[h])
    ensures Count(hs, p) == 0
  {
    assert Members(hs, p) == {};
  }

  /** A slot is refused exactly when all of them are held, and a tenant's only by the tenant's own load. */
  lemma RefusedExactlyWhenFull(cfg: Config, es: seq<Event>, h: nat)
    requires Run(cfg, es).Some?
    ensures var s := Run(cfg, es).value;
            && (Enabled(cfg, s, TakeSlot(h)) ==>
                  (InPhase(Apply(cfg, s, TakeSlot(h)), h, Refused(ByCapacity)) <==>
                   Count(s.handshakes, HoldsSlot()) == cfg.maxConnections))
            && (Enabled(cfg, s, TakeTenant(h)) ==>
                  (InPhase(Apply(cfg, s, TakeTenant(h)), h, Refused(ByTenant)) <==>
                   cfg.tenantCap.Some?
                   && Count(s.handshakes, HoldsTenant(s.handshakes[h].phase.tenant)) == cfg.tenantCap.value))
  {
    RunKeepsInv(cfg, es);
    var s := Run(cfg, es).value;
    if Enabled(cfg, s, TakeTenant(h)) {
      assert TenantConserved(cfg, s, s.handshakes[h].phase.tenant);
    }
  }
}
