/** The shared state of src/state.rs as the object it is, with the handlers of src/server.rs and src/api.rs that
    change it. One method call is one thread's turn; what many threads' turns add up to is the matter of the
    modules these methods are specified by. */
module AppStates {
  import opened Options
  import opened TokenBuckets
  import I = IpLimiters
  import C = Connections
  import R = Registry
  import T = Topics
  import S = Handshakes
  import D = Handlers
  import H = Hubs
  import P = Readers

  /** A connection's bounded queue; every sender shares it. */
  class Queue {
    const capacity: nat
    var items: seq<C.Item>
    var open: bool

    constructor (capacity: nat)
      ensures this.capacity == capacity && items == [] && open
    {
      this.capacity := capacity;
      items, open := [], true;
    }

    predicate Accepts()
      reads this
    {
      open && |items| < capacity
    }

    method TrySend(item: C.Item) returns (ok: bool)
      modifies this
      ensures ok == old(Accepts()) && open == old(open)
      ensures items == if ok then old(items) + [item] else old(items)
    {
      ok := open && |items| < capacity;
      if ok {
        items := items + [item];
      }
    }
  }

  datatype ClientHandle = ClientHandle(connectionId: nat, sender: Queue)

  datatype Config = Config(maxConnections: nat, tenantMaxConnections: Option<nat>, messages: P.Settings)

  /** `acquire_tenant_permit`: no limit configured, a permit, or none left. */
  datatype TenantPermit = Unlimited | Acquired | Exhausted

  datatype PublishResponse = Published(receivers: nat) | Unauthorized | EncodeFailed

  datatype DirectResponse = Sent | ClientNotFound | DirectUnauthorized | DirectEncodeFailed

  function Concurrent(states: map<I.IpAddr, I.IpState>, ip: I.IpAddr): nat {
    if ip in states then states[ip].concurrent else 0
  }

  lemma ReapedKeepsConcurrent(before: map<I.IpAddr, I.IpState>, now: real, after: map<I.IpAddr, I.IpState>,
                              ip: I.IpAddr)
    requires I.Reaped(before, now, after)
    ensures Concurrent(after, ip) == Concurrent(before, ip)
  {
    if ip in before && ip !in after {
      assert ip in before.Keys - after.Keys;
      assert ip in I.StaleKeys(before, now);
    }
  }

  lemma DecidedConcurrent(limits: I.Limits, left: map<I.IpAddr, I.IpState>, ip: I.IpAddr, now: real, a: I.IpAddr)
    ensures var (states, verdict) := I.Decide(limits, left, ip, now);
            Concurrent(states, a) == Concurrent(left, a) + if verdict.Granted? && a == ip then 1 else 0
  {
  }

  class AppState {
    const config: Config
    const ipLimiter: I.IpLimiter?
    var connectionLimit: nat
    var tenantLimits: map<string, nat>
    var tenantRateLimits: map<string, Bucket>
    var topics: map<string, seq<C.Message>>
    var receivers: map<string, nat>
    var clients: map<R.Key, ClientHandle>
    var nextConnectionId: nat
    var counters: S.Metrics
    var messagesOut: nat
    var droppedMessages: nat
    /** The connections whose look found their own handle. */
    ghost var saw: set<nat>

    constructor (config: Config, ipLimiter: I.IpLimiter?)
      ensures this.config == config && this.ipLimiter == ipLimiter
      ensures connectionLimit == config.maxConnections && nextConnectionId == 1
      ensures tenantLimits == map[] && tenantRateLimits == map[] && topics == map[] && clients == map[] && saw == {}
      ensures counters == S.Metrics(0, 0, 0, 0, 0, 0) && IdsInUseAreOld()
    {
      this.config, this.ipLimiter := config, ipLimiter;
      connectionLimit, nextConnectionId := config.maxConnections, 1;
      tenantLimits, tenantRateLimits, topics, receivers, clients := map[], map[], map[], map[], map[];
      counters, messagesOut, droppedMessages := S.Metrics(0, 0, 0, 0, 0, 0), 0, 0;
      saw := {};
    }

    // ----- Connection ids and the registry

    ghost function Registered(): map<R.Key, nat>
      reads this`clients
    {
      map key | key in clients :: clients[key].connectionId
    }

    ghost function Registry(): R.State
      reads this`clients, this`saw
    {
      R.State(Registered(), saw)
    }

    ghost predicate IdsInUseAreOld()
      reads this`clients, this`nextConnectionId
    {
      forall key | key in clients :: clients[key].connectionId < nextConnectionId
    }

    method NextConnectionId() returns (id: nat)
      modifies this`nextConnectionId
      ensures id == old(nextConnectionId) && nextConnectionId == id + 1
      ensures old(IdsInUseAreOld()) ==>
                IdsInUseAreOld() && forall key | key in clients :: clients[key].connectionId != id
    {
      id := nextConnectionId;
      nextConnectionId := nextConnectionId + 1;
    }

    method RegisterClient(client: string, tenant: string, connectionId: nat, sender: Queue)
      modifies this`clients
      ensures clients == old(clients)[R.Key(tenant, client) := ClientHandle(connectionId, sender)]
      ensures Registry() == R.Apply(old(Registry()), R.Register(R.Key(tenant, client), connectionId))
      ensures old(IdsInUseAreOld()) && connectionId < nextConnectionId ==> IdsInUseAreOld()
    {
      clients := clients[R.Key(tenant, client) := ClientHandle(connectionId, sender)];
    }

    /** The look of `unregister_client`, by itself a step that others may follow. */
    method FindsItself(key: R.Key, connectionId: nat) returns (own: bool)
      modifies this`saw
      ensures own == (R.Lookup(Registered(), key) == Some(connectionId))
      ensures Registry() == R.Apply(old(Registry()), R.Get(key, connectionId))
    {
      own := key in clients && clients[key].connectionId == connectionId;
      if own {
        saw := saw + {connectionId};
      }
    }

    /** Its removal, which trusts the look. */
    method RemoveClient(key: R.Key, ghost connectionId: nat)
      requires connectionId in saw
      modifies this`clients
      ensures Registry() == R.Apply(old(Registry()), R.Remove(key, connectionId))
      ensures clients == old(clients) - {key}
    {
      clients := clients - {key};
    }

    /** Both, when nobody comes between. */
    method UnregisterClient(client: string, tenant: string, connectionId: nat)
      modifies this`clients, this`saw
      ensures var key := R.Key(tenant, client);
              connectionId !in old(saw) ==>
                Registry() == R.Apply(R.Apply(old(Registry()), R.Get(key, connectionId)), R.Remove(key, connectionId))
      ensures forall key | key in clients :: key in old(clients) && clients[key] == old(clients)[key]
      ensures old(IdsInUseAreOld()) ==> IdsInUseAreOld()
    {
      var key := R.Key(tenant, client);
      var own := FindsItself(key, connectionId);
      if own {
        RemoveClient(key, connectionId);
      }
    }

    // ----- Queues and topics

    /** Only the queue registered under the sender's own tenant is ever touched. */
    method SendToClient(client: string, tenant: string) returns (ok: bool)
      modifies if R.Key(tenant, client) in clients then {clients[R.Key(tenant, client)].sender} else {}
      ensures ok <==> R.Key(tenant, client) in clients && old(clients[R.Key(tenant, client)].sender.Accepts())
      ensures R.Key(tenant, client) in clients ==>
                var queue := clients[R.Key(tenant, client)].sender;
                queue.items == old(queue.items) + if ok then [C.Direct(tenant, client)] else []
    {
      var key := R.Key(tenant, client);
      if key in clients {
        ok := clients[key].sender.TrySend(C.Direct(tenant, client));
      } else {
        ok := false;
      }
    }

    method SendEncoded(queue: Queue, item: C.Item) returns (ok: bool)
      modifies this`droppedMessages, queue
      ensures ok == old(queue.Accepts())
      ensures queue.items == old(queue.items) + if ok then [item] else []
      ensures droppedMessages == old(droppedMessages) + if ok then 0 else 1
    {
      ok := queue.TrySend(item);
      if !ok {
        droppedMessages := droppedMessages + 1;
      }
    }

    function HeardBy(key: string): nat
      reads this`receivers
    {
      if key in receivers then receivers[key] else 0
    }

    method TopicSender(key: string)
      modifies this`topics
      ensures topics == old(topics)[key := H.Log(old(topics), key)]
    {
      if key !in topics {
        topics := topics[key := []];
      }
    }

    /** Looks up or creates the channel of a key; a new subscriber hears what is published from now on. */
    method Subscribe(key: string) returns (position: nat)
      modifies this`topics, this`receivers
      ensures topics == old(topics)[key := H.Log(old(topics), key)] && position == |topics[key]|
      ensures forall other :: HeardBy(other) == old(HeardBy(other)) + if other == key then 1 else 0
    {
      TopicSender(key);
      receivers := receivers[key := HeardBy(key) + 1];
      position := |topics[key]|;
    }

    /** A receiver is dropped with the fanout task that owns it. */
    method DropReceiver(key: string)
      requires HeardBy(key) > 0
      modifies this`receivers
      ensures forall other :: HeardBy(other) == old(HeardBy(other)) - if other == key then 1 else 0
    {
      receivers := receivers[key := receivers[key] - 1];
    }

    method Publish(key: string, message: C.Message) returns (heardBy: nat)
      modifies this`topics
      ensures topics == old(topics)[key := H.Log(old(topics), key) + [message]] && heardBy == HeardBy(key)
    {
      TopicSender(key);
      topics := topics[key := topics[key] + [message]];
      heardBy := HeardBy(key);
    }

    /** The HTTP entry: the message goes where the cleaned-up name says and names what was asked for. Every
        receiver counts as a message out, and nobody there as one dropped. */
    method ApiPublish(tenant: Option<string>, topic: Option<string>, encodes: bool) returns (response: PublishResponse)
      modifies this`topics, this`messagesOut, this`droppedMessages
      ensures response.Unauthorized? <==> tenant.None?
      ensures response.Published? <==> tenant.Some? && encodes
      ensures response.Published? ==>
                var raw := if topic.Some? then topic.value else T.DEFAULT_TOPIC;
                var key := H.TopicKey(tenant.value, raw);
                && topics == old(topics)[key := H.Log(old(topics), key) + [C.Message(tenant.value, raw, true)]]
                && response.receivers == HeardBy(key)
                && messagesOut == old(messagesOut) + response.receivers
                && droppedMessages == old(droppedMessages) + if response.receivers == 0 then 1 else 0
      ensures !response.Published? ==> unchanged(this)
    {
      if tenant.None? {
        return Unauthorized;
      }
      if !encodes {
        return EncodeFailed;
      }
      var raw := if topic.Some? then topic.value else T.DEFAULT_TOPIC;
      var heardBy := Publish(H.TopicKey(tenant.value, raw), C.Message(tenant.value, raw, true));
      if heardBy == 0 {
        droppedMessages := droppedMessages + 1;
      } else {
        CountOut(heardBy);
      }
      response := Published(heardBy);
    }

    method CountOut(times: nat)
      modifies this`messagesOut
      ensures messagesOut == old(messagesOut) + times
    {
      for i := 0 to times
        invariant messagesOut == old(messagesOut) + i
      {
        messagesOut := messagesOut + 1;
      }
    }

    method ApiDirect(tenant: Option<string>, to: string, encodes: bool) returns (response: DirectResponse)
      modifies this`messagesOut, this`droppedMessages
      modifies if tenant.Some? && R.Key(tenant.value, to) in clients
               then {clients[R.Key(tenant.value, to)].sender} else {}
      ensures response.DirectUnauthorized? <==> tenant.None?
      ensures response.DirectEncodeFailed? <==> tenant.Some? && !encodes
      ensures response.Sent? <==> tenant.Some? && encodes && R.Key(tenant.value, to) in clients
                                  && old(clients[R.Key(tenant.value, to)].sender.Accepts())
      ensures tenant.Some? && R.Key(tenant.value, to) in clients ==>
                var queue := clients[R.Key(tenant.value, to)].sender;
                queue.items == old(queue.items) + if response.Sent? then [C.Direct(tenant.value, to)] else []
      ensures messagesOut == old(messagesOut) + if response.Sent? then 1 else 0
      ensures droppedMessages == old(droppedMessages) + if response.ClientNotFound? then 1 else 0
    {
      if tenant.None? {
        return DirectUnauthorized;
      }
      if !encodes {
        return DirectEncodeFailed;
      }
      var ok := SendToClient(to, tenant.value);
      if ok {
        messagesOut := messagesOut + 1;
        return Sent;
      }
      droppedMessages := droppedMessages + 1;
      return ClientNotFound;
    }

    method CheckTenantRate(tenant: string, now: real) returns (ok: bool)
      modifies this`tenantRateLimits
      ensures P.Checked(tenantRateLimits, ok) == P.CheckTenant(config.messages, old(tenantRateLimits), tenant, now)
    {
      if config.messages.tenantRate.None? {
        return true;
      }
      var rate := config.messages.tenantRate.value as real;
      var burst :=
        if config.messages.tenantBurst.Some? then config.messages.tenantBurst.value as real else MaxReal(rate, 1.0);
      if tenant !in tenantRateLimits {
        tenantRateLimits := tenantRateLimits[tenant := NewBucket(rate, burst, now)];
      }
      var (bucket, admitted) := Consume(tenantRateLimits[tenant], now);
      tenantRateLimits := tenantRateLimits[tenant := bucket];
      ok := admitted;
    }

    // ----- The handshake of one client

    function Handshaking(): S.Config {
      S.Config(if ipLimiter == null then None else Some(ipLimiter.limits), config.maxConnections,
               config.tenantMaxConnections)
    }

    function TenantFree(tenant: string): nat
      reads this`tenantLimits
    {
      S.TenantFree(Handshaking(), tenantLimits, tenant)
    }

    method AcquireTenantPermit(tenant: string) returns (permit: TenantPermit)
      modifies this`tenantLimits
      ensures permit.Unlimited? <==> config.tenantMaxConnections.None?
      ensures permit.Exhausted? <==> S.TenantFull(Handshaking(), old(tenantLimits), tenant)
      ensures tenantLimits == S.TakePermit(Handshaking(), old(tenantLimits), tenant)
      ensures forall t :: TenantFree(t) == old(TenantFree(t)) - if permit.Acquired? && t == tenant then 1 else 0
    {
      if config.tenantMaxConnections.None? {
        return Unlimited;
      }
      if tenant !in tenantLimits {
        tenantLimits := tenantLimits[tenant := config.tenantMaxConnections.value];
      }
      if tenantLimits[tenant] > 0 {
        tenantLimits := tenantLimits[tenant := tenantLimits[tenant] - 1];
        return Acquired;
      }
      assert tenantLimits == tenantLimits[tenant := 0];
      return Exhausted;
    }

    /** What a handshake is holding when it is admitted: one slot everywhere it was asked for. */
    twostate predicate Holding(ip: I.IpAddr, tenant: string)
      reads this, ipLimiter
    {
      && connectionLimit == old(connectionLimit) - 1
      && (forall t :: TenantFree(t)
                   == old(TenantFree(t)) - if config.tenantMaxConnections.Some? && t == tenant then 1 else 0)
      && (ipLimiter != null ==> forall a ::
            Concurrent(ipLimiter.states, a) == old(Concurrent(ipLimiter.states, a)) + if a == ip then 1 else 0)
    }

    /** Every slot that was free is free, on each of the three levels. */
    twostate predicate NothingHeld()
      reads this, ipLimiter
    {
      && connectionLimit == old(connectionLimit)
      && (forall t :: TenantFree(t) == old(TenantFree(t)))
      && (ipLimiter != null ==> forall a :: Concurrent(ipLimiter.states, a) == old(Concurrent(ipLimiter.states, a)))
    }

    /** What the server of the handshake runs has in common with this object. */
    ghost predicate Matches(s: S.Server)
      reads this, ipLimiter
    {
      && s.freeSlots == connectionLimit && s.freeTenant == tenantLimits && s.metrics == counters
      && (ipLimiter != null ==> s.limiter.states == ipLimiter.states)
    }

    /** Number `h` is free, for the handshake and for its reap. */
    ghost predicate Awaits(s: S.Server, h: nat, now: real) {
      h !in s.handshakes && s.limiter.clock <= now && (ipLimiter != null ==> h !in s.limiter.reapers)
    }

    /** Some run of steps, of handshake `h` alone, ends it with `outcome` in a state like this one. */
    ghost predicate IsReached(s: S.Server, h: nat, outcome: D.Outcome)
      reads this, ipLimiter
    {
      exists es, s' :: D.Leads(Handshaking(), s, es, s') && D.Ends(s, h, s', outcome) && Matches(s')
    }

    lemma Reaches(s: S.Server, h: nat, ip: I.IpAddr, tenant: Option<string>, now: real,
                  left: map<I.IpAddr, I.IpState>, outcome: D.Outcome)
      requires Awaits(s, h, now)
      requires if ipLimiter != null then I.Reaped(s.limiter.states, now, left) else left == s.limiter.states
      requires outcome == D.Decision(Handshaking(), s.freeSlots, s.freeTenant, tenant,
                                     D.Grants(Handshaking(), left, ip, now))
      requires connectionLimit == s.freeSlots - if outcome.Admitted? then 1 else 0
      requires tenantLimits == D.PermitsAfter(Handshaking(), s.freeTenant, tenant, outcome)
      requires counters == D.CountersAfter(s.metrics, outcome)
      requires ipLimiter != null ==> ipLimiter.states == D.StatesAfter(ipLimiter.limits, left, ip, now, outcome)
      ensures IsReached(s, h, outcome)
    {
      var es, s' := D.HandlerRuns(Handshaking(), s, h, ip, tenant, now, left);
      assert Matches(s');
    }

    /** `ws_handler` up to the upgrade: the four checks in their order. A refusal gives back what was taken. */
    method WsHandler(ip: I.IpAddr, tenant: Option<string>, now: real)
      returns (result: D.Outcome, verdict: I.Verdict, ghost reaped: map<I.IpAddr, I.IpState>)
      modifies this`connectionLimit, this`tenantLimits, this`counters, ipLimiter
      ensures ipLimiter != null ==>
                I.Reaped(old(ipLimiter.states), now, reaped) && verdict == I.Decide(ipLimiter.limits, reaped, ip, now).1
      ensures result == D.Decision(Handshaking(), old(connectionLimit), old(tenantLimits), tenant,
                                   ipLimiter != null ==> verdict.Granted?)
      ensures counters == D.CountersAfter(old(counters), result)
      ensures result.Admitted? ==> Holding(ip, tenant.value)
      ensures result.Turned? ==> NothingHeld()
      ensures forall s, h | old(Matches(s)) && Awaits(s, h, now) :: IsReached(s, h, result)
    {
      verdict := I.Granted;
      if ipLimiter != null {
        verdict, reaped := PassIp(ip, now);
      } else {
        reaped := map[];
      }
      if !verdict.Granted? {
        result := D.Turned(S.ByIp);
        counters := D.CountersAfter(counters, result);
      } else {
        result := AdmitPassed(ip, tenant, now);
      }
      forall s, h | old(Matches(s)) && Awaits(s, h, now) ensures IsReached(s, h, result) {
        Reaches(s, h, ip, tenant, now, if ipLimiter != null then reaped else s.limiter.states, result);
      }
    }

    /** The checks behind the IP limiter, whose permit is dropped on the way out of a refusal. */
    method AdmitPassed(ip: I.IpAddr, tenant: Option<string>, now: real) returns (result: D.Outcome)
      requires ipLimiter != null ==> Concurrent(ipLimiter.states, ip) > 0
      modifies this`connectionLimit, this`tenantLimits, this`counters, ipLimiter
      ensures result == D.Decision(Handshaking(), old(connectionLimit), old(tenantLimits), tenant, true)
      ensures counters == D.CountersAfter(old(counters), result)
      ensures connectionLimit == old(connectionLimit) - if result.Admitted? then 1 else 0
      ensures tenantLimits == D.PermitsAfter(Handshaking(), old(tenantLimits), tenant, result)
      ensures forall t ::
                TenantFree(t) == old(TenantFree(t))
                  - if result.Admitted? && config.tenantMaxConnections.Some? && Some(t) == tenant then 1 else 0
      ensures ipLimiter != null ==>
                ipLimiter.states ==
                if result.Turned? then I.GiveBack(old(ipLimiter.states), ip, now) else old(ipLimiter.states)
      ensures ipLimiter != null ==> forall a ::
                Concurrent(ipLimiter.states, a)
                == old(Concurrent(ipLimiter.states, a)) - if result.Turned? && a == ip then 1 else 0
    {
      if connectionLimit == 0 {
        result := D.Turned(S.ByCapacity);
      } else {
        connectionLimit := connectionLimit - 1;
        if tenant.None? {
          result := D.Turned(S.ByAuth);
        } else {
          var permit := AcquireTenantPermit(tenant.value);
          if !permit.Exhausted? {
            return D.Admitted;
          }
          result := D.Turned(S.ByTenant);
        }
        connectionLimit := connectionLimit + 1;
      }
      counters := D.CountersAfter(counters, result);
      if ipLimiter != null {
        ipLimiter.Release(ip, now);
      }
    }

    method PassIp(ip: I.IpAddr, now: real) returns (verdict: I.Verdict, ghost reaped: map<I.IpAddr, I.IpState>)
      requires ipLimiter != null
      modifies ipLimiter
      ensures I.Reaped(old(ipLimiter.states), now, reaped)
      ensures (ipLimiter.states, verdict) == I.Decide(ipLimiter.limits, reaped, ip, now)
      ensures forall a :: Concurrent(ipLimiter.states, a)
                       == old(Concurrent(ipLimiter.states, a)) + if verdict.Granted? && a == ip then 1 else 0
    {
      verdict, reaped := ipLimiter.TryAcquire(ip, now);
      forall a
        ensures Concurrent(ipLimiter.states, a)
             == old(Concurrent(ipLimiter.states, a)) + if verdict.Granted? && a == ip then 1 else 0
      {
        ReapedKeepsConcurrent(old(ipLimiter.states), now, reaped, a);
        DecidedConcurrent(ipLimiter.limits, reaped, ip, now, a);
      }
    }
  }

  /** The reader task of one connection: a limiter of its own and the server's tenant buckets. */
  class ReaderTask {
    const state: AppState
    const tenant: string
    const limiter: RateLimiter
    var stopped: bool

    ghost function View(): P.Reader
      reads this, limiter
    {
      P.Reader(tenant, limiter.View(), stopped)
    }

    constructor (state: AppState, tenant: string, now: real)
      ensures this.state == state && fresh(limiter)
      ensures View() == P.NewReader(state.config.messages, tenant, now)
    {
      this.state, this.tenant, stopped := state, tenant, false;
      limiter := new RateLimiter(state.config.messages.rate, state.config.messages.burst, now);
    }

    /** One turn of the loop. */
    method Receive(now: real, input: P.Input) returns (outcome: P.Outcome)
      modifies this`stopped, limiter, state`tenantRateLimits
      ensures P.Received(View(), state.tenantRateLimits, outcome)
           == P.Receive(state.config.messages, old(View()), old(state.tenantRateLimits), now, input)
    {
      match input {
        case Text(length) =>
          var own := limiter.Allow(now);
          if !own {
            stopped := true;
            return P.ConnectionLimited;
          }
          if length > state.config.messages.maxText {
            return P.TooLarge;
          }
          var shared := state.CheckTenantRate(tenant, now);
          return if shared then P.Handled else P.TenantLimited;
        case Binary =>
          var own := limiter.Allow(now);
          if !own {
            stopped := true;
            return P.ConnectionLimited;
          }
          var shared := state.CheckTenantRate(tenant, now);
          return if shared then P.Handled else P.TenantLimited;
        case Ping =>
          return P.Answered;
        case Pong =>
          return P.Skipped;
        case _ =>
          stopped := true;
          return P.Ended;
      }
    }

    method Serve(inputs: seq<P.Timed>) returns (outcomes: seq<P.Outcome>)
      modifies this`stopped, limiter, state`tenantRateLimits
      ensures P.Served(View(), state.tenantRateLimits, outcomes)
           == P.Serve(state.config.messages, old(View()), old(state.tenantRateLimits), inputs)
    {
      outcomes := [];
      var i := 0;
      while i < |inputs| && !stopped
        invariant i <= |inputs|
        invariant var rest := P.Serve(state.config.messages, View(), state.tenantRateLimits, inputs[i..]);
                  rest.(outcomes := outcomes + rest.outcomes)
                  == P.Serve(state.config.messages, old(View()), old(state.tenantRateLimits), inputs)
      {
        var outcome := Receive(inputs[i].at, inputs[i].input);
        assert inputs[i..][1..] == inputs[i + 1..];
        ghost var rest := P.Serve(state.config.messages, View(), state.tenantRateLimits, inputs[i + 1..]);
        assert outcomes + ([outcome] + rest.outcomes) == (outcomes + [outcome]) + rest.outcomes;
        outcomes := outcomes + [outcome];
        i := i + 1;
      }
    }
  }
}
