/** All connections at once, with what they share: the topics and the client registry of src/state.rs. Events
    enter through the websocket handlers of src/server.rs and through the HTTP handlers of src/api.rs. */
module Hubs {
  import opened Options
  import C = Connections
  import R = Registry
  import T = Topics

  /** `topics` has every message published under a key so far, `ops` everything done to the registry. */
  datatype Hub = Hub(topics: map<string, seq<C.Message>>, conns: map<nat, C.Conn>, registry: R.State, nextId: nat,
                     ops: seq<R.Op>)

  datatype Event =
    | Connect(tenant: string, client: string, raw: string)
    | At(c: nat, step: C.Step)
    | PublishWs(c: nat, topic: Option<string>)
    | PublishHttp(tenant: string, topic: Option<string>)
    | DirectWs(c: nat, to: string)
    | DirectHttp(tenant: string, to: string)

  const EMPTY := Hub(map[], map[], R.State(map[], {}), 1, [])

  function Log(topics: map<string, seq<C.Message>>, key: string): seq<C.Message> {
    if key in topics then topics[key] else []
  }

  function KeyOf(c: C.Conn): R.Key {
    R.Key(c.tenant, c.client)
  }

  function TopicKey(tenant: string, raw: string): string {
    T.TenantTopic(tenant, T.NormalizeTopic(raw))
  }

  /** The look into the registry finds what is there. */
  predicate May(h: Hub, id: nat, step: C.Step) {
    && id in h.conns
    && C.Enabled(h.conns[id], Log(h.topics, h.conns[id].topicKey), step)
    && (step.Look? ==> step.own == (R.Lookup(h.registry.clients, KeyOf(h.conns[id])) == Some(id)))
  }

  predicate Enabled(h: Hub, e: Event) {
    match e
    case Connect(_, _, _) => true
    case At(c, step) => May(h, c, step) && !step.Receive?
    case PublishWs(c, _) => c in h.conns && h.conns[c].tasks.reader == C.Running
    case PublishHttp(_, _) => true
    case DirectWs(c, _) => c in h.conns && h.conns[c].tasks.reader == C.Running
    case DirectHttp(_, _) => true
  }

  function RegistryOp(c: C.Conn, id: nat, step: C.Step): Option<R.Op> {
    match step
    case Register => Some(R.Register(KeyOf(c), id))
    case Look(_) => Some(R.Get(KeyOf(c), id))
    case Unregister => Some(R.Remove(KeyOf(c), id))
    case _ => None
  }

  function RegistryAfter(registry: R.State, c: C.Conn, id: nat, step: C.Step): R.State {
    var op := RegistryOp(c, id, step);
    if op.Some? then R.Apply(registry, op.value) else registry
  }

  function Step(cfg: C.Config, h: Hub, id: nat, step: C.Step): Hub
    requires id in h.conns && C.Enabled(h.conns[id], Log(h.topics, h.conns[id].topicKey), step)
  {
    var c := h.conns[id];
    var op := RegistryOp(c, id, step);
    h.(conns := h.conns[id := C.Apply(cfg, c, Log(h.topics, c.topicKey), step)],
       registry := RegistryAfter(h.registry, c, id, step),
       ops := if op.Some? then h.ops + [op.value] else h.ops)
  }

  function Publish(h: Hub, key: string, message: C.Message): Hub {
    h.(topics := h.topics[key := Log(h.topics, key) + [message]])
  }

  /** `send_to_client`: whoever is registered under the sender's own tenant. */
  function Deliver(cfg: C.Config, h: Hub, tenant: string, to: string): Hub {
    var target := R.Lookup(h.registry.clients, R.Key(tenant, to));
    if target.Some? && target.value in h.conns then Step(cfg, h, target.value, C.Receive(C.Direct(tenant, to)))
    else h
  }

  function Apply(cfg: C.Config, h: Hub, e: Event): Hub
    requires Enabled(h, e)
  {
    match e
    case Connect(tenant, client, raw) =>
      var key := TopicKey(tenant, raw);
      h.(topics := h.topics[key := Log(h.topics, key)],
         conns := h.conns[h.nextId := C.NewConn(tenant, client, key, |Log(h.topics, key)|)],
         nextId := h.nextId + 1)
    case At(c, step) => Step(cfg, h, c, step)
    case PublishWs(c, topic) =>
      var conn := h.conns[c];
      var key := if topic.Some? then TopicKey(conn.tenant, topic.value) else conn.topicKey;
      Publish(h, key, C.Message(conn.tenant, T.ExtractTopic(key), false))
    case PublishHttp(tenant, topic) =>
      var raw := if topic.Some? then topic.value else T.DEFAULT_TOPIC;
      Publish(h, TopicKey(tenant, raw), C.Message(tenant, raw, true))
    case DirectWs(c, to) => Deliver(cfg, h, h.conns[c].tenant, to)
    case DirectHttp(tenant, to) => Deliver(cfg, h, tenant, to)
  }

  function Run(cfg: C.Config, es: seq<Event>): Option<Hub> {
    if es == [] then Some(EMPTY)
    else
      var before, e := Run(cfg, es[..|es| - 1]), es[|es| - 1];
      if before.Some? && Enabled(before.value, e) then Some(Apply(cfg, before.value, e)) else None
  }

  // ----- One connection among the others

  /** Some client input of this tenant is routed on `key`. */
  ghost predicate Names(tenant: string, key: string) {
    exists raw :: key == TopicKey(tenant, raw)
  }

  /** What a message in the log of `key` says about itself. */
  ghost predicate Published(key: string, m: C.Message) {
    Names(m.origin, key) && if m.http then key == TopicKey(m.origin, m.topic) else m.topic == T.ExtractTopic(key)
  }

  ghost predicate ItemOk(c: C.Conn, log: seq<C.Message>, item: C.Item) {
    match item
    case Plain => true
    case Control => true
    case Ready(topic) => topic == T.ExtractTopic(c.topicKey)
    case Broadcast(m, key, position) => key == c.topicKey && position < |log| && log[position] == m
    case Direct(origin, to) => origin == c.tenant && to == c.client
  }

  ghost predicate ConnOk(cfg: C.Config, c: C.Conn, log: seq<C.Message>) {
    && C.ConnInv(cfg, c, log)
    && Names(c.tenant, c.topicKey)
    && forall item | item in c.box.taken :: ItemOk(c, log, item)
  }

  lemma OkGrows(cfg: C.Config, c: C.Conn, log: seq<C.Message>, longer: seq<C.Message>)
    requires ConnOk(cfg, c, log) && log <= longer
    ensures ConnOk(cfg, c, longer)
  {
  }

  lemma NewItemOk(cfg: C.Config, c: C.Conn, log: seq<C.Message>, step: C.Step, item: C.Item)
    requires C.Enabled(c, log, step) && item in C.BoxAfter(cfg, c, log, step).taken
    requires C.FeedInv(cfg, c.feed, C.Heard(c.box.taken), |log|)
    requires step.Receive? ==> step.item == C.Direct(c.tenant, c.client)
    ensures item in c.box.taken || ItemOk(c, log, item)
  {
  }

  lemma OkSteps(cfg: C.Config, c: C.Conn, log: seq<C.Message>, step: C.Step)
    requires ConnOk(cfg, c, log) && C.Enabled(c, log, step)
    requires step.Receive? ==> step.item == C.Direct(c.tenant, c.client)
    ensures ConnOk(cfg, C.Apply(cfg, c, log, step), log)
  {
    C.ConnStep(cfg, c, log, step);
    forall item | item in C.BoxAfter(cfg, c, log, step).taken ensures ItemOk(c, log, item) {
      NewItemOk(cfg, c, log, step, item);
    }
    SameIdentity(cfg, c, log, step);
  }

  lemma SameIdentity(cfg: C.Config, c: C.Conn, log: seq<C.Message>, step: C.Step)
    requires C.Enabled(c, log, step)
    ensures var c' := C.Apply(cfg, c, log, step);
            && c'.topicKey == c.topicKey && c'.box == C.BoxAfter(cfg, c, log, step)
            && forall item :: ItemOk(c', log, item) <==> ItemOk(c, log, item)
  {
  }

  // ----- The registry among the connections

  /** What the registry's log has of one connection, by where the connection stands. */
  ghost predicate Logged(registry: R.State, ops: seq<R.Op>, id: nat, c: C.Conn) {
    && (c.stage == C.Subscribed ==> forall i | 0 <= i < |ops| :: ops[i].c != id)
    && (c.stage != C.Subscribed ==> R.Register(KeyOf(c), id) in ops)
    && (R.Get(KeyOf(c), id) in ops <==> c.stage.Looked? || c.stage.Finished?)
    && (R.Remove(KeyOf(c), id) in ops <==> c.stage.Finished?)
    && (c.stage.Looked? ==> (c.stage.own <==> id in registry.saw))
    && (id in registry.saw ==> c.stage.Looked? || c.stage.Finished?)
  }

  /** An entry always belongs to a connection of that key which has registered and has neither left nor found
      itself replaced. */
  ghost predicate Holds(conns: map<nat, C.Conn>, key: R.Key, id: nat) {
    && id in conns && KeyOf(conns[id]) == key
    && conns[id].stage != C.Subscribed && conns[id].stage != C.Looked(false) && conns[id].stage != C.Finished
  }

  ghost predicate RegistryOk(h: Hub) {
    && h.registry == R.Run(h.ops) && R.WellFormed(h.ops)
    && (forall i | 0 <= i < |h.ops| :: h.ops[i].c in h.conns) && (forall id | id in h.registry.saw :: id in h.conns)
    && (forall key | key in h.registry.clients :: Holds(h.conns, key, h.registry.clients[key]))
    && (forall id | id in h.conns :: Logged(h.registry, h.ops, id, h.conns[id]))
  }

  lemma RunExtends(ops: seq<R.Op>, op: R.Op)
    ensures R.Run(ops + [op]) == R.Apply(R.Run(ops), op)
  {
    assert (ops + [op])[..|ops|] == ops;
  }

  lemma LogExtends(h: Hub, id: nat, op: R.Op)
    requires RegistryOk(h) && id in h.conns && op.c == id && op.key == KeyOf(h.conns[id])
    requires match op
             case Register(_, _) => h.conns[id].stage == C.Subscribed
             case Get(_, _) => h.conns[id].stage == C.Joined
             case Remove(_, _) => h.conns[id].stage.Looked?
    ensures R.WellFormed(h.ops + [op])
  {
    assert (h.ops + [op])[..|h.ops|] == h.ops;
    assert Logged(h.registry, h.ops, id, h.conns[id]);
  }

  lemma OthersLogged(h: Hub, op: R.Op, other: nat)
    requires other in h.conns && other != op.c && Logged(h.registry, h.ops, other, h.conns[other])
    ensures Logged(R.Apply(h.registry, op), h.ops + [op], other, h.conns[other])
  {
    var c := h.conns[other];
    assert forall x: R.Op | x.c == other :: x in h.ops + [op] <==> x in h.ops;
  }

  lemma OwnLogged(cfg: C.Config, h: Hub, id: nat, step: C.Step)
    requires RegistryOk(h) && May(h, id, step) && RegistryOp(h.conns[id], id, step).Some?
    ensures var h' := Step(cfg, h, id, step); Logged(h'.registry, h'.ops, id, h'.conns[id])
  {
    var c, op := h.conns[id], RegistryOp(h.conns[id], id, step).value;
    assert Logged(h.registry, h.ops, id, c);
    assert forall x :: x in h.ops + [op] <==> x in h.ops || x == op;
  }

  lemma StaysHolder(h: Hub, id: nat, step: C.Step, key: R.Key)
    requires RegistryOk(h) && May(h, id, step)
    requires var clients := RegistryAfter(h.registry, h.conns[id], id, step).clients;
             key in clients && clients[key] == id
    ensures KeyOf(h.conns[id]) == key
    ensures C.StageAfter(h.conns[id], step) !in {C.Subscribed, C.Looked(false), C.Finished}
  {
    assert Logged(h.registry, h.ops, id, h.conns[id]);
    if key in h.registry.clients {
      assert Holds(h.conns, key, h.registry.clients[key]);
    }
  }

  lemma HoldersStep(cfg: C.Config, h: Hub, id: nat, step: C.Step, key: R.Key)
    requires RegistryOk(h) && May(h, id, step) && key in Step(cfg, h, id, step).registry.clients
    ensures Holds(Step(cfg, h, id, step).conns, key, Step(cfg, h, id, step).registry.clients[key])
  {
    var holder := Step(cfg, h, id, step).registry.clients[key];
    if holder == id {
      StaysHolder(h, id, step, key);
    } else {
      assert key in h.registry.clients && h.registry.clients[key] == holder;
      assert Holds(h.conns, key, holder);
    }
  }

  lemma QuietStep(cfg: C.Config, h: Hub, id: nat, step: C.Step)
    requires RegistryOk(h) && May(h, id, step) && RegistryOp(h.conns[id], id, step).None?
    ensures var h' := Step(cfg, h, id, step);
            && h'.registry == h.registry && h'.ops == h.ops
            && forall other | other in h'.conns :: Logged(h'.registry, h'.ops, other, h'.conns[other])
  {
    assert Logged(h.registry, h.ops, id, h.conns[id]);
  }

  lemma LoggedStep(cfg: C.Config, h: Hub, id: nat, step: C.Step)
    requires RegistryOk(h) && May(h, id, step) && RegistryOp(h.conns[id], id, step).Some?
    ensures var h' := Step(cfg, h, id, step);
            forall other | other in h'.conns :: Logged(h'.registry, h'.ops, other, h'.conns[other])
  {
    var op, h' := RegistryOp(h.conns[id], id, step).value, Step(cfg, h, id, step);
    forall other | other in h'.conns ensures Logged(h'.registry, h'.ops, other, h'.conns[other]) {
      if other == id {
        OwnLogged(cfg, h, id, step);
      } else {
        OthersLogged(h, op, other);
      }
    }
  }

  lemma RegistryStep(cfg: C.Config, h: Hub, id: nat, step: C.Step)
    requires RegistryOk(h) && May(h, id, step)
    ensures RegistryOk(Step(cfg, h, id, step))
  {
    var op, h' := RegistryOp(h.conns[id], id, step), Step(cfg, h, id, step);
    if op.None? {
      QuietStep(cfg, h, id, step);
    } else {
      LogExtends(h, id, op.value);
      RunExtends(h.ops, op.value);
      LoggedStep(cfg, h, id, step);
    }
    forall key | key in h'.registry.clients ensures Holds(h'.conns, key, h'.registry.clients[key]) {
      HoldersStep(cfg, h, id, step, key);
    }
  }

  // ----- Everything

  ghost predicate TopicsOk(topics: map<string, seq<C.Message>>) {
    forall key | key in topics :: forall m | m in topics[key] :: Published(key, m)
  }

  ghost predicate ConnsOk(cfg: C.Config, topics: map<string, seq<C.Message>>, conns: map<nat, C.Conn>) {
    forall id | id in conns :: ConnOk(cfg, conns[id], Log(topics, conns[id].topicKey))
  }

  ghost predicate Fresh(conns: map<nat, C.Conn>, nextId: nat) {
    forall id | id in conns :: id < nextId
  }

  ghost predicate Inv(cfg: C.Config, h: Hub) {
    TopicsOk(h.topics) && RegistryOk(h) && ConnsOk(cfg, h.topics, h.conns) && Fresh(h.conns, h.nextId)
  }

  lemma OneChanges(cfg: C.Config, topics: map<string, seq<C.Message>>, conns: map<nat, C.Conn>, id: nat, c: C.Conn)
    requires ConnsOk(cfg, topics, conns) && ConnOk(cfg, c, Log(topics, c.topicKey))
    ensures ConnsOk(cfg, topics, conns[id := c])
  {
  }

  lemma LogGrows(topics: map<string, seq<C.Message>>, key: string, more: seq<C.Message>, other: string)
    ensures Log(topics, other) <= Log(topics[key := Log(topics, key) + more], other)
  {
  }

  lemma AllGrow(cfg: C.Config, topics: map<string, seq<C.Message>>, conns: map<nat, C.Conn>, key: string,
                more: seq<C.Message>)
    requires ConnsOk(cfg, topics, conns)
    ensures ConnsOk(cfg, topics[key := Log(topics, key) + more], conns)
  {
    var topics' := topics[key := Log(topics, key) + more];
    forall id | id in conns ensures ConnOk(cfg, conns[id], Log(topics', conns[id].topicKey)) {
      var own := conns[id].topicKey;
      LogGrows(topics, key, more, own);
      OkGrows(cfg, conns[id], Log(topics, own), Log(topics', own));
    }
  }

  lemma StepChangesOne(cfg: C.Config, h: Hub, id: nat, step: C.Step)
    requires May(h, id, step)
    ensures var h' := Step(cfg, h, id, step);
            && h'.topics == h.topics && h'.nextId == h.nextId
            && h'.conns == h.conns[id := C.Apply(cfg, h.conns[id], Log(h.topics, h.conns[id].topicKey), step)]
  {
  }

  lemma StepKeepsConns(cfg: C.Config, h: Hub, id: nat, step: C.Step)
    requires ConnsOk(cfg, h.topics, h.conns) && May(h, id, step)
    requires step.Receive? ==> step.item == C.Direct(h.conns[id].tenant, h.conns[id].client)
    ensures ConnsOk(cfg, Step(cfg, h, id, step).topics, Step(cfg, h, id, step).conns)
  {
    var c, log := h.conns[id], Log(h.topics, h.conns[id].topicKey);
    OkSteps(cfg, c, log, step);
    SameIdentity(cfg, c, log, step);
    OneChanges(cfg, h.topics, h.conns, id, C.Apply(cfg, c, log, step));
    StepChangesOne(cfg, h, id, step);
  }

  lemma InvFromParts(cfg: C.Config, h: Hub, id: nat, h': Hub)
    requires TopicsOk(h.topics) && Fresh(h.conns, h.nextId) && id in h.conns
    requires h'.topics == h.topics && h'.nextId == h.nextId && id in h'.conns && h'.conns == h.conns[id := h'.conns[id]]
    requires RegistryOk(h') && ConnsOk(cfg, h'.topics, h'.conns)
    ensures Inv(cfg, h')
  {
  }

  lemma StepKeepsInv(cfg: C.Config, h: Hub, id: nat, step: C.Step)
    requires Inv(cfg, h) && May(h, id, step)
    requires step.Receive? ==> step.item == C.Direct(h.conns[id].tenant, h.conns[id].client)
    ensures Inv(cfg, Step(cfg, h, id, step))
  {
    var h' := Step(cfg, h, id, step);
    RegistryStep(cfg, h, id, step);
    StepKeepsConns(cfg, h, id, step);
    assert h'.topics == h.topics && h'.nextId == h.nextId && h'.conns == h.conns[id := h'.conns[id]] by {
      StepChangesOne(cfg, h, id, step);
    }
    InvFromParts(cfg, h, id, h');
  }

  lemma TargetIsThere(h: Hub, tenant: string, to: string)
    requires RegistryOk(h)
    ensures var target := R.Lookup(h.registry.clients, R.Key(tenant, to));
            target.Some? ==>
              && May(h, target.value, C.Receive(C.Direct(tenant, to)))
              && h.conns[target.value].tenant == tenant && h.conns[target.value].client == to
  {
    var key := R.Key(tenant, to);
    assert key in h.registry.clients ==> Holds(h.conns, key, h.registry.clients[key]);
  }

  lemma DeliverKeepsInv(cfg: C.Config, h: Hub, tenant: string, to: string)
    requires Inv(cfg, h)
    ensures Inv(cfg, Deliver(cfg, h, tenant, to))
  {
    var target := R.Lookup(h.registry.clients, R.Key(tenant, to));
    TargetIsThere(h, tenant, to);
    if target.Some? {
      StepKeepsInv(cfg, h, target.value, C.Receive(C.Direct(tenant, to)));
    }
  }

  lemma PublishKeepsInv(cfg: C.Config, h: Hub, key: string, m: C.Message)
    requires Inv(cfg, h) && Published(key, m)
    ensures Inv(cfg, Publish(h, key, m))
  {
    AllGrow(cfg, h.topics, h.conns, key, [m]);
  }

  lemma NewConnOk(cfg: C.Config, tenant: string, client: string, raw: string, log: seq<C.Message>)
    ensures ConnOk(cfg, C.NewConn(tenant, client, TopicKey(tenant, raw), |log|), log)
  {
  }

  lemma NewcomerUnregistered(h: Hub, h': Hub, id: nat, c: C.Conn)
    requires RegistryOk(h) && id !in h.conns && c.stage == C.Subscribed
    requires h'.registry == h.registry && h'.ops == h.ops && h'.conns == h.conns[id := c]
    ensures RegistryOk(h')
  {
    forall other | other in h'.conns ensures Logged(h.registry, h.ops, other, h'.conns[other]) {
      assert other in h.conns ==> Logged(h.registry, h.ops, other, h.conns[other]);
    }
    forall key | key in h.registry.clients ensures Holds(h'.conns, key, h.registry.clients[key]) {
      assert Holds(h.conns, key, h.registry.clients[key]);
    }
  }

  lemma ConnectKeepsConns(cfg: C.Config, h: Hub, tenant: string, client: string, raw: string)
    requires ConnsOk(cfg, h.topics, h.conns)
    ensures var h' := Apply(cfg, h, Connect(tenant, client, raw)); ConnsOk(cfg, h'.topics, h'.conns)
  {
    var key := TopicKey(tenant, raw);
    var log := Log(h.topics, key);
    var c := C.NewConn(tenant, client, key, |log|);
    NewConnOk(cfg, tenant, client, raw, log);
    OneChanges(cfg, h.topics, h.conns, h.nextId, c);
    AllGrow(cfg, h.topics, h.conns[h.nextId := c], key, []);
    assert log + [] == log;
  }

  lemma ConnectKeepsInv(cfg: C.Config, h: Hub, tenant: string, client: string, raw: string)
    requires Inv(cfg, h)
    ensures Inv(cfg, Apply(cfg, h, Connect(tenant, client, raw)))
  {
    var key := TopicKey(tenant, raw);
    ConnectKeepsConns(cfg, h, tenant, client, raw);
    NewcomerUnregistered(h, Apply(cfg, h, Connect(tenant, client, raw)), h.nextId,
                         C.NewConn(tenant, client, key, |Log(h.topics, key)|));
  }

  lemma ApplyKeepsInv(cfg: C.Config, h: Hub, e: Event)
    requires Inv(cfg, h) && Enabled(h, e)
    ensures Inv(cfg, Apply(cfg, h, e))
  {
    match e {
      case Connect(tenant, client, raw) => ConnectKeepsInv(cfg, h, tenant, client, raw);
      case At(c, step) => StepKeepsInv(cfg, h, c, step);
      case PublishWs(c, topic) =>
        var conn := h.conns[c];
        var key := if topic.Some? then TopicKey(conn.tenant, topic.value) else conn.topicKey;
        PublishKeepsInv(cfg, h, key, C.Message(conn.tenant, T.ExtractTopic(key), false));
      case PublishHttp(tenant, topic) =>
        var raw := if topic.Some? then topic.value else T.DEFAULT_TOPIC;
        PublishKeepsInv(cfg, h, TopicKey(tenant, raw), C.Message(tenant, raw, true));
      case DirectWs(c, to) => DeliverKeepsInv(cfg, h, h.conns[c].tenant, to);
      case DirectHttp(tenant, to) => DeliverKeepsInv(cfg, h, tenant, to);
    }
  }

  lemma {:induction false} RunKeepsInv(cfg: C.Config, es: seq<Event>)
    requires Run(cfg, es).Some?
    ensures Inv(cfg, Run(cfg, es).value)
  {
    if es != [] {
      RunKeepsInv(cfg, es[..|es| - 1]);
      ApplyKeepsInv(cfg, Run(cfg, es[..|es| - 1]).value, es[|es| - 1]);
    }
  }

  lemma ConnOkAtEnd(cfg: C.Config, es: seq<Event>, h: Hub, id: nat)
    requires Run(cfg, es) == Some(h) && id in h.conns
    ensures ConnOk(cfg, h.conns[id], Log(h.topics, h.conns[id].topicKey))
  {
    RunKeepsInv(cfg, es);
  }

  // ----- What a connection is sent, and how

  /** In every run, every connection: attempts are accounted for, the queue stays within its capacity, and the
      socket has been given a prefix of what the queue accepted, in order. */
  lemma QueueAccounts(cfg: C.Config, es: seq<Event>, h: Hub, id: nat)
    requires Run(cfg, es) == Some(h) && id in h.conns
    ensures var box := h.conns[id].box;
            box.attempts == box.enqueued + box.dropped && |box.queue| <= cfg.queueCapacity && box.sent <= box.taken
  {
    ConnOkAtEnd(cfg, es, h, id);
  }

  lemma {:induction false} HeardIsTaken(items: seq<C.Item>, p: nat)
    requires p in C.Heard(items)
    ensures exists item :: item in items && item.Broadcast? && item.position == p
  {
    var early, last := items[..|items| - 1], items[|items| - 1];
    if p in C.Heard(early) {
      HeardIsTaken(early, p);
    } else {
      assert last in items;
    }
  }

  /** Every message of the topic that the cursor has passed since the subscription has been queued, but for those
      the connection was told it missed, and for the one that a full or closed queue refused, if that happened. */
  ghost predicate NothingLost(c: C.Conn, log: seq<C.Message>) {
    var feed := c.feed;
    forall p | feed.start <= p < feed.cursor && p !in feed.lagged && !(feed.refused && p == feed.cursor - 1) ::
      p < |log| && C.Broadcast(log[p], c.topicKey, p) in c.box.taken
  }

  lemma HeardIsThere(cfg: C.Config, c: C.Conn, log: seq<C.Message>)
    requires ConnOk(cfg, c, log)
    ensures NothingLost(c, log)
  {
    forall p | c.feed.start <= p < c.feed.cursor && p !in c.feed.lagged && !(c.feed.refused && p == c.feed.cursor - 1)
      ensures p < |log| && C.Broadcast(log[p], c.topicKey, p) in c.box.taken
    {
      HeardIsTaken(c.box.taken, p);
      var item :| item in c.box.taken && item.Broadcast? && item.position == p;
      assert ItemOk(c, log, item);
    }
  }

  /** In every run, a connection has lost nothing that it was not told of, up to the message that ended it. */
  lemma OnlyLagLoses(cfg: C.Config, es: seq<Event>, h: Hub, id: nat)
    requires Run(cfg, es) == Some(h) && id in h.conns
    ensures NothingLost(h.conns[id], Log(h.topics, h.conns[id].topicKey))
  {
    ConnOkAtEnd(cfg, es, h, id);
    HeardIsThere(cfg, h.conns[id], Log(h.topics, h.conns[id].topicKey));
  }

  /** And it was told so only of messages that the channel no longer kept: the last `ring` are never among them. */
  lemma LagIsOverwritten(cfg: C.Config, es: seq<Event>, h: Hub, id: nat, p: nat)
    requires Run(cfg, es) == Some(h) && id in h.conns && p in h.conns[id].feed.lagged
    ensures p + cfg.ring < |Log(h.topics, h.conns[id].topicKey)|
    ensures h.conns[id].feed.start <= p < h.conns[id].feed.cursor
  {
    ConnOkAtEnd(cfg, es, h, id);
  }

  /** `es` leads from `h` to `h'`. */
  ghost predicate Leads(cfg: C.Config, h: Hub, es: seq<Event>, h': Hub)
    decreases |es|
  {
    if es == [] then h == h' else Enabled(h, es[0]) && Leads(cfg, Apply(cfg, h, es[0]), es[1..], h')
  }

  /** The later state has every log of the earlier one as its beginning. Its connections stand by their
      subscriptions, and the newer ones subscribed behind the earlier logs. */
  ghost predicate Follows(h: Hub, later: Hub) {
    && (forall key :: Log(h.topics, key) <= Log(later.topics, key))
    && (forall id | id in h.conns ::
          && id in later.conns && later.conns[id].topicKey == h.conns[id].topicKey
          && later.conns[id].feed.start == h.conns[id].feed.start)
    && (forall id | id in later.conns && id !in h.conns ::
          later.conns[id].feed.start >= |Log(h.topics, later.conns[id].topicKey)|)
  }

  lemma StepSubscribesNothing(cfg: C.Config, h: Hub, id: nat, step: C.Step)
    requires May(h, id, step)
    ensures var h' := Step(cfg, h, id, step);
            && h'.topics == h.topics && h'.conns.Keys == h.conns.Keys
            && forall other | other in h.conns ::
                 && h'.conns[other].feed.start == h.conns[other].feed.start
                 && h'.conns[other].topicKey == h.conns[other].topicKey
  {
  }

  lemma FollowsStep(cfg: C.Config, h: Hub, later: Hub, id: nat, step: C.Step)
    requires Follows(h, later) && May(later, id, step)
    ensures Follows(h, Step(cfg, later, id, step))
  {
    StepSubscribesNothing(cfg, later, id, step);
    assert forall other | other in h.conns :: other in Step(cfg, later, id, step).conns.Keys;
  }

  lemma FollowsDelivery(cfg: C.Config, h: Hub, later: Hub, tenant: string, to: string)
    requires Follows(h, later) && RegistryOk(later)
    ensures Follows(h, Deliver(cfg, later, tenant, to))
  {
    var target := R.Lookup(later.registry.clients, R.Key(tenant, to));
    TargetIsThere(later, tenant, to);
    if target.Some? {
      FollowsStep(cfg, h, later, target.value, C.Receive(C.Direct(tenant, to)));
    }
  }

  lemma FollowsPublishing(h: Hub, later: Hub, key: string, m: C.Message)
    requires Follows(h, later)
    ensures Follows(h, Publish(later, key, m))
  {
  }

  lemma FollowsConnect(cfg: C.Config, h: Hub, later: Hub, tenant: string, client: string, raw: string)
    requires Follows(h, later) && Fresh(later.conns, later.nextId)
    ensures Follows(h, Apply(cfg, later, Connect(tenant, client, raw)))
  {
  }

  lemma FollowsApply(cfg: C.Config, h: Hub, later: Hub, e: Event)
    requires Follows(h, later) && RegistryOk(later) && Fresh(later.conns, later.nextId) && Enabled(later, e)
    ensures Follows(h, Apply(cfg, later, e))
  {
    match e {
      case At(c, step) => FollowsStep(cfg, h, later, c, step);
      case PublishWs(c, topic) =>
        var conn := later.conns[c];
        var key := if topic.Some? then TopicKey(conn.tenant, topic.value) else conn.topicKey;
        FollowsPublishing(h, later, key, C.Message(conn.tenant, T.ExtractTopic(key), false));
      case PublishHttp(tenant, topic) =>
        var raw := if topic.Some? then topic.value else T.DEFAULT_TOPIC;
        FollowsPublishing(h, later, TopicKey(tenant, raw), C.Message(tenant, raw, true));
      case DirectWs(c, to) => FollowsDelivery(cfg, h, later, later.conns[c].tenant, to);
      case DirectHttp(tenant, to) => FollowsDelivery(cfg, h, later, tenant, to);
      case Connect(tenant, client, raw) => FollowsConnect(cfg, h, later, tenant, client, raw);
    }
  }

  lemma FollowsItself(h: Hub)
    ensures Follows(h, h)
  {
  }

  lemma {:induction false} LeadsFollow(cfg: C.Config, h0: Hub, h: Hub, es: seq<Event>, later: Hub)
    requires Inv(cfg, h) && Follows(h0, h) && Leads(cfg, h, es, later)
    ensures Inv(cfg, later) && Follows(h0, later)
    decreases |es|
  {
    if es != [] {
      FollowsApply(cfg, h0, h, es[0]);
      ApplyKeepsInv(cfg, h, es[0]);
      LeadsFollow(cfg, h0, Apply(cfg, h, es[0]), es[1..], later);
    }
  }

  lemma ConnOkIn(cfg: C.Config, h: Hub, id: nat)
    requires Inv(cfg, h) && id in h.conns
    ensures ConnOk(cfg, h.conns[id], Log(h.topics, h.conns[id].topicKey))
  {
  }

  lemma BroadcastIsRecent(cfg: C.Config, c: C.Conn, log: seq<C.Message>, item: C.Item)
    requires ConnOk(cfg, c, log) && item in c.box.taken && item.Broadcast?
    ensures item.position >= c.feed.start && item.key == c.topicKey
  {
    assert ItemOk(c, log, item);
    TakenIsHeard(c.box.taken, item);
  }

  /** Nobody is ever sent a topic message that was published before they connected. */
  lemma NothingOldIsHeard(cfg: C.Config, es: seq<Event>, h: Hub, more: seq<Event>, later: Hub, id: nat, item: C.Item)
    requires Run(cfg, es) == Some(h) && Leads(cfg, h, more, later) && id in later.conns && id !in h.conns
    requires item in later.conns[id].box.taken && item.Broadcast?
    ensures item.position >= |Log(h.topics, item.key)|
  {
    RunKeepsInv(cfg, es);
    FollowsItself(h);
    LeadsFollow(cfg, h, h, more, later);
    ConnOkIn(cfg, later, id);
    BroadcastIsRecent(cfg, later.conns[id], Log(later.topics, later.conns[id].topicKey), item);
  }

  lemma {:induction false} TakenIsHeard(items: seq<C.Item>, item: C.Item)
    requires item in items && item.Broadcast?
    ensures item.position in C.Heard(items)
  {
    var early, last := items[..|items| - 1], items[|items| - 1];
    if item in early {
      TakenIsHeard(early, item);
    }
  }

  predicate IsTeardown(e: Event, id: nat) {
    e.At? && e.c == id && C.TearsDown(e.step)
  }

  lemma DeliveryMoves(cfg: C.Config, h: Hub, tenant: string, to: string, id: nat) returns (step: Option<C.Step>)
    requires RegistryOk(h) && id in h.conns
    ensures var c, log, h' := h.conns[id], Log(h.topics, h.conns[id].topicKey), Deliver(cfg, h, tenant, to);
            && id in h'.conns && (step.None? ==> h'.conns[id] == c)
            && (step.Some? ==> step.value.Receive? && C.Enabled(c, log, step.value)
                               && h'.conns[id] == C.Apply(cfg, c, log, step.value))
  {
    var target := R.Lookup(h.registry.clients, R.Key(tenant, to));
    TargetIsThere(h, tenant, to);
    step := if target == Some(id) then Some(C.Receive(C.Direct(tenant, to))) else None;
  }

  /** What an event does to one connection: one of the connection's steps, or nothing. */
  lemma ConnMoves(cfg: C.Config, h: Hub, e: Event, id: nat) returns (step: Option<C.Step>)
    requires RegistryOk(h) && Fresh(h.conns, h.nextId) && Enabled(h, e) && id in h.conns
    ensures var c, log, h' := h.conns[id], Log(h.topics, h.conns[id].topicKey), Apply(cfg, h, e);
            && id in h'.conns && (step.None? ==> h'.conns[id] == c)
            && (step.Some? ==> C.Enabled(c, log, step.value) && h'.conns[id] == C.Apply(cfg, c, log, step.value))
    ensures IsTeardown(e, id) <==> step.Some? && C.TearsDown(step.value)
  {
    match e {
      case At(c, own) => step := if c == id then Some(own) else None;
      case DirectWs(c, to) => step := DeliveryMoves(cfg, h, h.conns[c].tenant, to, id);
      case DirectHttp(tenant, to) => step := DeliveryMoves(cfg, h, tenant, to, id);
      case _ => step := None;
    }
  }

  // ----- Routing, from the events alone

  datatype Identity = Identity(tenant: string, client: string, raw: string)

  function Arrivals(es: seq<Event>): nat {
    if es == [] then 0 else Arrivals(es[..|es| - 1]) + if es[|es| - 1].Connect? then 1 else 0
  }

  /** Who connection `id` is; ids are handed out from 1 in the order of connecting. */
  function WhoIs(es: seq<Event>, id: nat): Option<Identity> {
    if es == [] then None
    else
      var e := es[|es| - 1];
      if e.Connect? && Arrivals(es) == id then Some(Identity(e.tenant, e.client, e.raw))
      else WhoIs(es[..|es| - 1], id)
  }

  datatype Post = Post(key: string, message: C.Message)

  function NamedOr(topic: Option<string>, otherwise: string): string {
    if topic.Some? then topic.value else otherwise
  }

  /** Where an event publishes after `es`, and what: the topic it names, or else the one the connection asked for
      when it came, or "public", made clean and put under the publisher's own tenant. */
  function PostOf(es: seq<Event>, e: Event): Option<Post> {
    match e
    case PublishWs(c, topic) =>
      var who := WhoIs(es, c);
      if who.None? then None
      else
        var key := T.TenantTopic(who.value.tenant, T.NormalizeTopic(NamedOr(topic, who.value.raw)));
        Some(Post(key, C.Message(who.value.tenant, T.ExtractTopic(key), false)))
    case PublishHttp(tenant, topic) =>
      var raw := NamedOr(topic, "public");
      Some(Post(T.TenantTopic(tenant, T.NormalizeTopic(raw)), C.Message(tenant, raw, true)))
    case _ => None
  }

  function PostsUnder(es: seq<Event>, key: string): seq<C.Message> {
    if es == [] then []
    else
      var before := es[..|es| - 1];
      var post := PostOf(before, es[|es| - 1]);
      PostsUnder(before, key) + if post.Some? && post.value.key == key then [post.value.message] else []
  }

  ghost predicate Known(es: seq<Event>, id: nat, c: C.Conn) {
    var who := WhoIs(es, id);
    && who.Some? && c.tenant == who.value.tenant && c.client == who.value.client
    && c.topicKey == T.TenantTopic(who.value.tenant, T.NormalizeTopic(who.value.raw))
  }

  ghost predicate AllKnown(es: seq<Event>, h: Hub) {
    && h.nextId == Arrivals(es) + 1
    && forall id | id in h.conns :: id < h.nextId && Known(es, id, h.conns[id])
  }

  ghost predicate AllPosted(es: seq<Event>, h: Hub) {
    forall key :: Log(h.topics, key) == PostsUnder(es, key)
  }

  lemma EventsExtend(es: seq<Event>, e: Event, id: nat, key: string)
    ensures Arrivals(es + [e]) == Arrivals(es) + if e.Connect? then 1 else 0
    ensures WhoIs(es + [e], id) ==
            if e.Connect? && Arrivals(es) + 1 == id then Some(Identity(e.tenant, e.client, e.raw)) else WhoIs(es, id)
    ensures var post := PostOf(es, e);
            PostsUnder(es + [e], key) == PostsUnder(es, key) + if post.Some? && post.value.key == key
                                                               then [post.value.message] else []
  {
    assert (es + [e])[..|es|] == es;
  }

  lemma KnownStays(cfg: C.Config, es: seq<Event>, h: Hub, e: Event, id: nat)
    requires AllKnown(es, h) && RegistryOk(h) && Enabled(h, e) && id in h.conns
    ensures id in Apply(cfg, h, e).conns && Known(es + [e], id, Apply(cfg, h, e).conns[id])
  {
    EventsExtend(es, e, id, "");
    var step := ConnMoves(cfg, h, e, id);
  }

  lemma KnownNext(cfg: C.Config, es: seq<Event>, h: Hub, e: Event)
    requires AllKnown(es, h) && RegistryOk(h) && Enabled(h, e)
    ensures AllKnown(es + [e], Apply(cfg, h, e))
  {
    var h' := Apply(cfg, h, e);
    EventsExtend(es, e, h.nextId, "");
    OnlyConnectAdds(cfg, h, e);
    forall id | id in h'.conns ensures id < h'.nextId && Known(es + [e], id, h'.conns[id]) {
      if id in h.conns {
        KnownStays(cfg, es, h, e, id);
      }
    }
  }

  lemma OnlyConnectAdds(cfg: C.Config, h: Hub, e: Event)
    requires Enabled(h, e)
    ensures var h' := Apply(cfg, h, e);
            && h'.nextId == h.nextId + (if e.Connect? then 1 else 0)
            && h'.conns.Keys == h.conns.Keys + (if e.Connect? then {h.nextId} else {})
  {
  }

  /** A step that publishes adds its message to the log it is routed to, and nothing else changes any log. */
  lemma PostedNext(cfg: C.Config, es: seq<Event>, h: Hub, e: Event, key: string)
    requires AllKnown(es, h) && Enabled(h, e)
    ensures var post := PostOf(es, e);
            Log(Apply(cfg, h, e).topics, key) == Log(h.topics, key) + if post.Some? && post.value.key == key
                                                                      then [post.value.message] else []
  {
  }

  ghost predicate Told(cfg: C.Config, es: seq<Event>) {
    Run(cfg, es).Some? ==> AllKnown(es, Run(cfg, es).value) && AllPosted(es, Run(cfg, es).value)
  }

  lemma NothingIsTold(cfg: C.Config)
    ensures Told(cfg, [])
  {
  }

  lemma NextIsTold(cfg: C.Config, es: seq<Event>, e: Event)
    requires Told(cfg, es)
    ensures Told(cfg, es + [e])
  {
    assert (es + [e])[..|es|] == es;
    if Run(cfg, es + [e]).Some? {
      RunKeepsInv(cfg, es);
      LastIsTold(cfg, es, Run(cfg, es).value, e);
    }
  }

  lemma {:induction false} RunIsTold(cfg: C.Config, es: seq<Event>)
    ensures Told(cfg, es)
  {
    if es == [] {
      NothingIsTold(cfg);
    } else {
      RunIsTold(cfg, es[..|es| - 1]);
      NextIsTold(cfg, es[..|es| - 1], es[|es| - 1]);
      assert es[..|es| - 1] + [es[|es| - 1]] == es;
    }
  }

  lemma LastIsTold(cfg: C.Config, es: seq<Event>, h: Hub, e: Event)
    requires AllKnown(es, h) && AllPosted(es, h) && RegistryOk(h) && Enabled(h, e)
    ensures AllKnown(es + [e], Apply(cfg, h, e)) && AllPosted(es + [e], Apply(cfg, h, e))
  {
    KnownNext(cfg, es, h, e);
    forall key ensures Log(Apply(cfg, h, e).topics, key) == PostsUnder(es + [e], key) {
      PostedNext(cfg, es, h, e, key);
      EventsExtend(es, e, 0, key);
    }
  }

  /** A client can publish and address others for exactly as long as its reader runs. */
  lemma ReadersAct(h: Hub, c: nat, topic: Option<string>, to: string)
    ensures Enabled(h, PublishWs(c, topic)) <==> c in h.conns && h.conns[c].tasks.reader == C.Running
    ensures Enabled(h, DirectWs(c, to)) <==> c in h.conns && h.conns[c].tasks.reader == C.Running
    ensures Enabled(h, PublishWs(c, topic)) <==> Enabled(h, At(c, C.ReaderSend))
  {
  }

  /** In every run, each connection is who it said it was and subscribed to the topic it asked for, made clean,
      under its own tenant. */
  lemma ConnectionsAreKnown(cfg: C.Config, es: seq<Event>, h: Hub, id: nat)
    requires Run(cfg, es) == Some(h) && id in h.conns
    ensures Known(es, id, h.conns[id])
  {
    RunIsTold(cfg, es);
  }

  /** In every run, the log of each key is exactly what was published to it, in order: every message on the topic it
      was meant for, and on no other. */
  lemma LogsAreThePosts(cfg: C.Config, es: seq<Event>, h: Hub, key: string)
    requires Run(cfg, es) == Some(h)
    ensures Log(h.topics, key) == PostsUnder(es, key)
  {
    RunIsTold(cfg, es);
  }

  /** What a connection of key `key` has queued of position `p`, once its receiver is past it. */
  ghost predicate Heard(c: C.Conn, key: string, p: nat, m: C.Message) {
    p < c.feed.cursor && p !in c.feed.lagged && !(c.feed.refused && p == c.feed.cursor - 1) ==>
      C.Broadcast(m, key, p) in c.box.taken
  }

  lemma LostOrHeard(cfg: C.Config, c: C.Conn, log: seq<C.Message>, p: nat)
    requires ConnOk(cfg, c, log) && c.feed.start <= p < |log|
    ensures Heard(c, c.topicKey, p, log[p])
  {
    HeardIsThere(cfg, c, log);
  }

  lemma HeardLater(cfg: C.Config, c: C.Conn, before: seq<C.Message>, m: C.Message, later: C.Conn, log: seq<C.Message>)
    requires ConnOk(cfg, c, before) && ConnOk(cfg, later, log) && before + [m] <= log
    requires later.topicKey == c.topicKey && later.feed.start == c.feed.start
    ensures Heard(later, c.topicKey, |before|, m)
  {
    assert (before + [m])[|before|] == m;
    LostOrHeard(cfg, later, log, |before|);
  }

  /** Who was connected on the topic that a message is published on has it queued once the receiver has come past it,
      unless it was overwritten before that, or the queue refused it. */
  lemma PostsAreHeard(cfg: C.Config, es: seq<Event>, h: Hub, e: Event, more: seq<Event>, later: Hub, id: nat)
    requires Run(cfg, es) == Some(h) && Enabled(h, e) && Leads(cfg, Apply(cfg, h, e), more, later)
    requires PostOf(es, e).Some? && WhoIs(es, id).Some? && id in h.conns
    requires var who, key := WhoIs(es, id).value, PostOf(es, e).value.key;
             T.TenantTopic(who.tenant, T.NormalizeTopic(who.raw)) == key
    ensures var Post(key, message) := PostOf(es, e).value;
            id in later.conns && Heard(later.conns[id], key, |Log(h.topics, key)|, message)
  {
    RunKeepsInv(cfg, es);
    RunIsTold(cfg, es);
    var published, post := Apply(cfg, h, e), PostOf(es, e).value;
    assert Known(es, id, h.conns[id]);
    PostedNext(cfg, es, h, e, post.key);
    ApplyKeepsInv(cfg, h, e);
    FollowsItself(h);
    FollowsApply(cfg, h, h, e);
    FollowsItself(published);
    LeadsFollow(cfg, published, published, more, later);
    ConnOkIn(cfg, h, id);
    ConnOkIn(cfg, later, id);
    HeardLater(cfg, h.conns[id], Log(h.topics, post.key), post.message, later.conns[id], Log(later.topics, post.key));
  }

  // ----- Tenants

  predicate From(item: C.Item, tenant: string) {
    (item.Broadcast? && item.message.origin == tenant) || (item.Direct? && item.origin == tenant)
  }

  /** After this run, connection `id` of tenant `t2` has been queued something that came from tenant `t1`. */
  ghost predicate Crosses(cfg: C.Config, es: seq<Event>, id: nat, t1: string, t2: string) {
    Run(cfg, es).Some? && Holding(Run(cfg, es).value, id, t1, t2)
  }

  ghost predicate Holding(h: Hub, id: nat, t1: string, t2: string) {
    && id in h.conns && h.conns[id].tenant == t2
    && exists item :: item in h.conns[id].box.taken && From(item, t1)
  }

  lemma SharedNameCollides(t1: string, t2: string, key: string)
    requires Names(t1, key) && Names(t2, key)
    ensures T.Collide(t1, t2)
  {
    var x1 :| key == TopicKey(t1, x1);
    var x2 :| key == TopicKey(t2, x2);
    T.NormalizedIsTopic(x1);
    T.NormalizedIsTopic(x2);
    T.SharedKeyCollides(t1, T.NormalizeTopic(x1), t2, T.NormalizeTopic(x2));
  }

  /** What every queued item says about its origin. */
  lemma ItemAtEnd(cfg: C.Config, es: seq<Event>, h: Hub, id: nat, item: C.Item)
    requires Run(cfg, es) == Some(h) && id in h.conns
    requires item in h.conns[id].box.taken
    ensures var c := h.conns[id];
            && Names(c.tenant, c.topicKey)
            && (item.Broadcast? ==> item.key == c.topicKey && Published(c.topicKey, item.message))
            && (item.Direct? ==> item.origin == c.tenant && item.to == c.client)
            && (item.Ready? ==> item.topic == T.ExtractTopic(c.topicKey))
  {
    RunKeepsInv(cfg, es);
    var c, log := h.conns[id], Log(h.topics, h.conns[id].topicKey);
    assert ItemOk(c, log, item);
    if item.Broadcast? {
      assert item.message in log;
    }
  }

  lemma CrossingCollides(cfg: C.Config, es: seq<Event>, id: nat, t1: string, t2: string)
    requires Crosses(cfg, es, id, t1, t2)
    ensures T.Collide(t1, t2)
  {
    var h := Run(cfg, es).value;
    var c := h.conns[id];
    var item :| item in c.box.taken && From(item, t1);
    ItemAtEnd(cfg, es, h, id, item);
    if item.Broadcast? {
      SharedNameCollides(t1, t2, c.topicKey);
    }
  }

  lemma RunStep(cfg: C.Config, es: seq<Event>, e: Event)
    requires Run(cfg, es).Some? && Enabled(Run(cfg, es).value, e)
    ensures Run(cfg, es + [e]) == Some(Apply(cfg, Run(cfg, es).value, e))
  {
    assert (es + [e])[..|es|] == es;
  }

  /** A client connects and is registered. */
  function Entry(tenant: string, client: string, raw: string): seq<Event> {
    [Connect(tenant, client, raw)] + [At(1, C.Register)]
  }

  /** A client of `t2` subscribes, and a request of `t1` publishes under the same key. */
  function Meeting(t1: string, x1: string, t2: string, x2: string): seq<Event> {
    Entry(t2, "c", x2) + [At(1, C.SendReady(true))] + [PublishHttp(t1, Some(x1))] + [At(1, C.WriterTake)] +
    [At(1, C.FanoutRecv)]
  }

  lemma Enters(cfg: C.Config, tenant: string, client: string, raw: string)
    ensures var c := C.NewConn(tenant, client, TopicKey(tenant, raw), 0);
            Run(cfg, Entry(tenant, client, raw)) ==
            Some(Hub(map[c.topicKey := []], map[1 := c.(stage := C.Registered)],
                     R.State(map[KeyOf(c) := 1], {}), 2, [R.Register(KeyOf(c), 1)]))
  {
    var c := C.NewConn(tenant, client, TopicKey(tenant, raw), 0);
    var h := Hub(map[c.topicKey := []], map[1 := c], R.State(map[], {}), 2, []);
    assert Run(cfg, []) == Some(EMPTY);
    assert Apply(cfg, EMPTY, Connect(tenant, client, raw)) == h;
    RunStep(cfg, [], Connect(tenant, client, raw));
    RunStep(cfg, [Connect(tenant, client, raw)], At(1, C.Register));
    assert [] + [Connect(tenant, client, raw)] == [Connect(tenant, client, raw)];
    var registered := C.Apply(cfg, c, [], C.Register);
    assert registered == c.(stage := C.Registered);
    assert h.conns[1 := registered] == map[1 := registered];
    assert R.Apply(h.registry, R.Register(KeyOf(c), 1)) == R.State(map[KeyOf(c) := 1], {});
    assert h.ops + [R.Register(KeyOf(c), 1)] == [R.Register(KeyOf(c), 1)];
  }

  lemma Joins(cfg: C.Config, t2: string, x2: string)
    requires cfg.queueCapacity >= 1
    ensures var key := TopicKey(t2, x2);
            var h := Run(cfg, Entry(t2, "c", x2) + [At(1, C.SendReady(true))]);
            && h.Some? && 1 in h.value.conns && h.value.topics == map[key := []]
            && h.value.conns[1] == Joined(t2, key)
  {
    Enters(cfg, t2, "c", x2);
    RunStep(cfg, Entry(t2, "c", x2), At(1, C.SendReady(true)));
  }

  /** The connection that `Joins` leaves behind. */
  function Joined(t2: string, key: string): C.Conn {
    var c := C.NewConn(t2, "c", key, 0);
    c.(stage := C.Watching, tasks := C.Tasks(C.Running, C.Running, C.Running),
       box := C.SendEncoded(c.box, true, C.Ready(T.ExtractTopic(key))))
  }

  lemma Hears(cfg: C.Config, t2: string, key: string, m: C.Message)
    requires cfg.queueCapacity >= 1 && cfg.ring >= 1
    ensures var c := Joined(t2, key);
            && C.Enabled(c, [m], C.WriterTake)
            && var taken := C.Apply(cfg, c, [m], C.WriterTake);
               && taken.topicKey == key && C.Enabled(taken, [m], C.FanoutRecv)
               && var heard := C.Apply(cfg, taken, [m], C.FanoutRecv);
                  heard.tenant == t2 && C.Broadcast(m, key, 0) in heard.box.taken
  {
    var c := Joined(t2, key);
    var taken := C.Apply(cfg, c, [m], C.WriterTake);
    assert taken.box.queue == [] && C.Accepts(cfg, taken);
    var heard := C.Apply(cfg, taken, [m], C.FanoutRecv);
    assert heard.box.taken[1] == C.Broadcast(m, key, 0);
  }

  lemma Announces(cfg: C.Config, es: seq<Event>, c: C.Conn, t1: string, x1: string)
    requires var h := Run(cfg, es);
             h.Some? && 1 in h.value.conns && h.value.conns[1] == c && Log(h.value.topics, TopicKey(t1, x1)) == []
    ensures var h := Run(cfg, es + [PublishHttp(t1, Some(x1))]);
            && h.Some? && 1 in h.value.conns && h.value.conns[1] == c
            && Log(h.value.topics, TopicKey(t1, x1)) == [C.Message(t1, x1, true)]
  {
    RunStep(cfg, es, PublishHttp(t1, Some(x1)));
  }

  /** After this run, connection 1 of `tenant` has been queued the first message published under `key`. */
  ghost predicate HasHeard(cfg: C.Config, es: seq<Event>, tenant: string, key: string, m: C.Message) {
    && Run(cfg, es).Some? && 1 in Run(cfg, es).value.conns && Run(cfg, es).value.conns[1].tenant == tenant
    && C.Broadcast(m, key, 0) in Run(cfg, es).value.conns[1].box.taken
  }

  lemma Receives(cfg: C.Config, es: seq<Event>, t2: string, key: string, m: C.Message)
    requires cfg.queueCapacity >= 1 && cfg.ring >= 1
    requires var h := Run(cfg, es);
             h.Some? && 1 in h.value.conns && h.value.conns[1] == Joined(t2, key) && Log(h.value.topics, key) == [m]
    ensures HasHeard(cfg, es + [At(1, C.WriterTake)] + [At(1, C.FanoutRecv)], t2, key, m)
  {
    Hears(cfg, t2, key, m);
    RunStep(cfg, es, At(1, C.WriterTake));
    RunStep(cfg, es + [At(1, C.WriterTake)], At(1, C.FanoutRecv));
  }

  lemma MeetingHears(cfg: C.Config, t1: string, x1: string, t2: string, x2: string)
    requires cfg.queueCapacity >= 1 && cfg.ring >= 1 && TopicKey(t1, x1) == TopicKey(t2, x2)
    ensures HasHeard(cfg, Meeting(t1, x1, t2, x2), t2, TopicKey(t2, x2), C.Message(t1, x1, true))
  {
    var key := TopicKey(t2, x2);
    var joined := Entry(t2, "c", x2) + [At(1, C.SendReady(true))];
    var told := joined + [PublishHttp(t1, Some(x1))];
    Joins(cfg, t2, x2);
    Announces(cfg, joined, Joined(t2, key), t1, x1);
    Receives(cfg, told, t2, key, C.Message(t1, x1, true));
  }

  lemma MeetingCrosses(cfg: C.Config, t1: string, x1: string, t2: string, x2: string)
    requires cfg.queueCapacity >= 1 && cfg.ring >= 1 && TopicKey(t1, x1) == TopicKey(t2, x2)
    ensures Crosses(cfg, Meeting(t1, x1, t2, x2), 1, t1, t2)
  {
    MeetingHears(cfg, t1, x1, t2, x2);
    assert From(C.Broadcast(C.Message(t1, x1, true), TopicKey(t2, x2), 0), t1);
  }

  /** A client subscribed to "a" is sent, under its own tenant, a message that names the topic " a". */
  lemma HttpNamesAsAsked(cfg: C.Config, tenant: string)
    requires cfg.queueCapacity >= 1 && cfg.ring >= 1
    ensures var key := T.TenantTopic(tenant, "a");
            && HasHeard(cfg, Meeting(tenant, " a", tenant, "a"), tenant, key, C.Message(tenant, " a", true))
            && key != T.TenantTopic(tenant, " a")
  {
    T.NormalizedTwice();
    T.PrintableIsNoSpace('a');
    assert T.IsTopic("a");
    T.FixedExactly("a");
    MeetingHears(cfg, tenant, " a", tenant, "a");
    SamePrefix(tenant, "a", " a");
  }

  /** Something of one tenant can end up with a client of another exactly when their ids collide: by any entry,
      in any run, however many connections there are. */
  lemma TenantsMeetExactly(cfg: C.Config, t1: string, t2: string)
    requires cfg.queueCapacity >= 1 && cfg.ring >= 1
    ensures T.Collide(t1, t2) <==> exists es, id :: Crosses(cfg, es, id, t1, t2)
  {
    if T.Collide(t1, t2) {
      T.SharedKeyExactly(t1, t2);
      var x1, x2 :| T.TenantTopic(t1, T.NormalizeTopic(x1)) == T.TenantTopic(t2, T.NormalizeTopic(x2));
      MeetingCrosses(cfg, t1, x1, t2, x2);
    }
    if es, id :| Crosses(cfg, es, id, t1, t2) {
      CrossingCollides(cfg, es, id, t1, t2);
    }
  }

  /** Where tenant ids have no ':', nobody is ever sent anything of another tenant, and a direct message only
      ever reaches the client it names. */
  lemma TenantsAreIsolated(cfg: C.Config, es: seq<Event>, h: Hub, id: nat, item: C.Item, origin: string)
    requires Run(cfg, es) == Some(h) && id in h.conns
    requires item in h.conns[id].box.taken && From(item, origin)
    ensures var c := h.conns[id];
            && (':' !in origin && ':' !in c.tenant ==> origin == c.tenant)
            && (item.Direct? ==> origin == c.tenant && item.to == c.client)
  {
    var c := h.conns[id];
    ItemAtEnd(cfg, es, h, id, item);
    CrossingCollides(cfg, es, id, origin, c.tenant);
    if ':' !in origin && ':' !in c.tenant {
      T.PlainTenantsApart(origin, c.tenant);
    }
  }

  lemma SamePrefix(tenant: string, x: string, y: string)
    ensures T.TenantTopic(tenant, x) == T.TenantTopic(tenant, y) <==> x == y
  {
    var n := |tenant| + 1;
    assert T.TenantTopic(tenant, x)[n..] == x && T.TenantTopic(tenant, y)[n..] == y;
  }

  lemma ExtractedNames(tenant: string, key: string)
    requires Names(tenant, key)
    ensures key == T.TenantTopic(tenant, T.ExtractTopic(key)) <==> ':' !in tenant
    ensures ':' !in tenant ==> T.IsTopic(T.ExtractTopic(key))
  {
    var raw :| key == TopicKey(tenant, raw);
    T.KeyRoundTrip(tenant, T.NormalizeTopic(raw));
    T.NormalizedIsTopic(raw);
    SamePrefix(tenant, T.ExtractTopic(key), T.NormalizeTopic(raw));
  }

  /** Ready names the topic the connection is subscribed to exactly when its tenant id has no ':'. */
  lemma ReadyNamesTopic(cfg: C.Config, es: seq<Event>, h: Hub, id: nat, item: C.Item)
    requires Run(cfg, es) == Some(h) && id in h.conns
    requires item in h.conns[id].box.taken && item.Ready?
    ensures var c := h.conns[id];
            c.topicKey == T.TenantTopic(c.tenant, item.topic) <==> ':' !in c.tenant
  {
    ItemAtEnd(cfg, es, h, id, item);
    ExtractedNames(h.conns[id].tenant, h.conns[id].topicKey);
  }

  /** A message names the topic it was routed on exactly when, from a websocket, its sender's tenant id has no
      ':', and, from the HTTP entry, the requested name was a clean one already. */
  lemma MessageNamesTopic(cfg: C.Config, es: seq<Event>, h: Hub, id: nat, item: C.Item)
    requires Run(cfg, es) == Some(h) && id in h.conns
    requires item in h.conns[id].box.taken && item.Broadcast?
    ensures var m := item.message;
            item.key == T.TenantTopic(m.origin, m.topic) <==>
            if m.http then T.NormalizeTopic(m.topic) == m.topic else ':' !in m.origin
  {
    ItemAtEnd(cfg, es, h, id, item);
    var m := item.message;
    ExtractedNames(m.origin, item.key);
    SamePrefix(m.origin, T.NormalizeTopic(m.topic), m.topic);
  }

  // ----- Teardown and the registry

  lemma GoneFromRegistry(h: Hub, id: nat)
    requires RegistryOk(h) && id in h.conns && h.conns[id].stage.Finished?
    ensures forall key :: R.Lookup(h.registry.clients, key) != Some(id)
  {
    forall key | key in h.registry.clients ensures h.registry.clients[key] != id {
      assert Holds(h.conns, key, h.registry.clients[key]);
    }
  }

  /** A connection that unregisters has had all its tasks stopped first, does it once, and is then in nobody's
      way. */
  ghost predicate ClosedDown(h: Hub, id: nat, c: C.Conn) {
    && (c.stage.Joined? || c.stage.Looked? || c.stage.Finished? ==> c.tasks == C.ALL_STOPPED)
    && c.unregistrations == (if c.stage.Finished? then 1 else 0)
    && (c.stage.Finished? ==> forall key :: R.Lookup(h.registry.clients, key) != Some(id))
  }

  lemma StageAt(cfg: C.Config, h: Hub, id: nat)
    requires ConnsOk(cfg, h.topics, h.conns) && id in h.conns
    ensures C.StageInv(h.conns[id])
  {
    assert ConnOk(cfg, h.conns[id], Log(h.topics, h.conns[id].topicKey));
  }

  lemma ClosesDown(h: Hub, id: nat)
    requires RegistryOk(h) && id in h.conns && C.StageInv(h.conns[id])
    ensures ClosedDown(h, id, h.conns[id])
  {
    if h.conns[id].stage.Finished? {
      GoneFromRegistry(h, id);
    }
  }

  lemma TeardownCloses(cfg: C.Config, es: seq<Event>, h: Hub, id: nat)
    requires Run(cfg, es) == Some(h) && id in h.conns
    ensures ClosedDown(h, id, h.conns[id])
  {
    RunKeepsInv(cfg, es);
    StageAt(cfg, h, id);
    ClosesDown(h, id);
  }

  // ----- A connection that closes

  ghost predicate ClosingAt(h: Hub, id: nat) {
    id in h.conns && C.Closing(h.conns[id])
  }

  lemma ClosingApply(cfg: C.Config, h: Hub, e: Event, id: nat)
    requires RegistryOk(h) && Fresh(h.conns, h.nextId) && Enabled(h, e) && ClosingAt(h, id) && C.StageInv(h.conns[id])
    ensures var h' := Apply(cfg, h, e);
            && ClosingAt(h', id)
            && C.Remaining(h'.conns[id]) <= C.Remaining(h.conns[id]) - if IsTeardown(e, id) then 1 else 0
  {
    var step := ConnMoves(cfg, h, e, id);
    if step.Some? {
      C.ClosingStays(cfg, h.conns[id], Log(h.topics, h.conns[id].topicKey), step.value);
    }
  }

  ghost predicate TeardownReady(h: Hub, id: nat) {
    exists step :: C.TearsDown(step) && Enabled(h, At(id, step))
  }

  lemma ClosingIsReady(h: Hub, id: nat)
    requires ClosingAt(h, id) && C.StageInv(h.conns[id]) && !h.conns[id].stage.Finished?
    ensures TeardownReady(h, id)
  {
    var c, log := h.conns[id], Log(h.topics, h.conns[id].topicKey);
    var own := R.Lookup(h.registry.clients, KeyOf(c)) == Some(id);
    C.ClosingMoves(c, log, own);
    assert Enabled(h, At(id, C.NextStep(c, own)));
  }

  function Teardowns(es: seq<Event>, id: nat): nat {
    if es == [] then 0 else (if IsTeardown(es[0], id) then 1 else 0) + Teardowns(es[1..], id)
  }

  lemma {:induction false} ClosingThen(cfg: C.Config, h: Hub, es: seq<Event>, h': Hub, id: nat)
    requires Inv(cfg, h) && ClosingAt(h, id) && Leads(cfg, h, es, h')
    ensures ClosingAt(h', id) && C.Remaining(h'.conns[id]) + Teardowns(es, id) <= C.Remaining(h.conns[id])
    decreases |es|
  {
    if es != [] {
      StageAt(cfg, h, id);
      ClosingApply(cfg, h, es[0], id);
      ApplyKeepsInv(cfg, h, es[0]);
      ClosingThen(cfg, Apply(cfg, h, es[0]), es[1..], h', id);
    }
  }

  /** In every run, whatever else goes on: a closing connection stays one, and each step of its teardown uses up one
      of those that remained. */
  lemma ClosingInRun(cfg: C.Config, es: seq<Event>, h: Hub, more: seq<Event>, h': Hub, id: nat)
    requires Run(cfg, es) == Some(h) && ClosingAt(h, id) && Leads(cfg, h, more, h')
    ensures ClosingAt(h', id) && C.Remaining(h'.conns[id]) + Teardowns(more, id) <= C.Remaining(h.conns[id])
  {
    RunKeepsInv(cfg, es);
    ClosingThen(cfg, h, more, h', id);
  }

  /** And until it has finished, another can be taken. */
  lemma ClosingGoesOn(cfg: C.Config, es: seq<Event>, id: nat)
    requires Run(cfg, es).Some? && ClosingAt(Run(cfg, es).value, id)
    ensures Run(cfg, es).value.conns[id].stage.Finished? || TeardownReady(Run(cfg, es).value, id)
  {
    RunKeepsInv(cfg, es);
    StageAt(cfg, Run(cfg, es).value, id);
    if !Run(cfg, es).value.conns[id].stage.Finished? {
      ClosingIsReady(Run(cfg, es).value, id);
    }
  }

  /** A run without end. */
  ghost predicate Execution(cfg: C.Config, states: nat -> Hub, events: nat -> Event) {
    && states(0) == EMPTY
    && forall n: nat :: Enabled(states(n), events(n)) && states(n + 1) == Apply(cfg, states(n), events(n))
  }

  /** From `n` on, a step of this teardown is taken, or there comes a point where none is possible. */
  ghost predicate AttendedFrom(states: nat -> Hub, events: nat -> Event, id: nat, n: nat) {
    exists m: nat :: n <= m && (IsTeardown(events(m), id) || !TeardownReady(states(m), id))
  }

  /** The scheduler does not leave a step of this teardown waiting for ever. */
  ghost predicate Attended(states: nat -> Hub, events: nat -> Event, id: nat) {
    forall n: nat :: AttendedFrom(states, events, id, n)
  }

  lemma {:induction false} ExecutionKeepsInv(cfg: C.Config, states: nat -> Hub, events: nat -> Event, n: nat)
    requires Execution(cfg, states, events)
    ensures Inv(cfg, states(n))
  {
    if n == 0 {
      RunKeepsInv(cfg, []);
    } else {
      ExecutionKeepsInv(cfg, states, events, n - 1);
      ApplyKeepsInv(cfg, states(n - 1), events(n - 1));
      assert states(n) == Apply(cfg, states(n - 1), events(n - 1));
    }
  }

  lemma ClosingNext(cfg: C.Config, states: nat -> Hub, events: nat -> Event, id: nat, n: nat)
    requires Execution(cfg, states, events) && ClosingAt(states(n), id)
    ensures && ClosingAt(states(n + 1), id)
            && C.Remaining(states(n + 1).conns[id])
               <= C.Remaining(states(n).conns[id]) - if IsTeardown(events(n), id) then 1 else 0
  {
    ExecutionKeepsInv(cfg, states, events, n);
    StageAt(cfg, states(n), id);
    ClosingApply(cfg, states(n), events(n), id);
  }

  lemma {:induction false} ClosingLater(cfg: C.Config, states: nat -> Hub, events: nat -> Event, id: nat, n: nat,
                                        m: nat)
    requires Execution(cfg, states, events) && ClosingAt(states(n), id) && n <= m
    ensures ClosingAt(states(m), id) && C.Remaining(states(m).conns[id]) <= C.Remaining(states(n).conns[id])
    decreases m
  {
    if n < m {
      ClosingLater(cfg, states, events, id, n, m - 1);
      ClosingNext(cfg, states, events, id, m - 1);
    }
  }

  lemma {:induction false} ClosingEnds(cfg: C.Config, states: nat -> Hub, events: nat -> Event, id: nat, n: nat)
    returns (end: nat)
    requires Execution(cfg, states, events) && Attended(states, events, id) && ClosingAt(states(n), id)
    ensures n <= end && id in states(end).conns && states(end).conns[id].stage.Finished?
    decreases C.Remaining(states(n).conns[id])
  {
    if states(n).conns[id].stage.Finished? {
      end := n;
    } else {
      assert AttendedFrom(states, events, id, n);
      var m: nat :| n <= m && (IsTeardown(events(m), id) || !TeardownReady(states(m), id));
      ClosingLater(cfg, states, events, id, n, m);
      if states(m).conns[id].stage.Finished? {
        end := m;
      } else {
        ExecutionKeepsInv(cfg, states, events, m);
        StageAt(cfg, states(m), id);
        ClosingIsReady(states(m), id);
        ClosingNext(cfg, states, events, id, m);
        end := ClosingEnds(cfg, states, events, id, m + 1);
      }
    }
  }

  /** In every execution that attends to it, however the tasks of all connections interleave: once a message was
      refused to the fanout, or any task has stopped, the connection finishes, with all tasks stopped, unregistered
      once, and no entry left. */
  lemma AlwaysEnds(cfg: C.Config, states: nat -> Hub, events: nat -> Event, id: nat, n: nat) returns (end: nat)
    requires Execution(cfg, states, events) && Attended(states, events, id) && id in states(n).conns
    requires var c := states(n).conns[id];
             c.feed.refused || C.Stopped in {c.tasks.reader, c.tasks.writer, c.tasks.fanout}
    ensures n <= end && id in states(end).conns
    ensures var c := states(end).conns[id]; c.stage.Finished? && ClosedDown(states(end), id, c)
  {
    ExecutionKeepsInv(cfg, states, events, n);
    StageAt(cfg, states(n), id);
    C.RefusedCloses(states(n).conns[id]);
    end := ClosingEnds(cfg, states, events, id, n);
    ExecutionKeepsInv(cfg, states, events, end);
    StageAt(cfg, states(end), id);
    ClosesDown(states(end), id);
  }

  lemma DeliversToRegistered(cfg: C.Config, h: Hub, tenant: string, to: string, id: nat)
    requires RegistryOk(h) && id in h.conns
    ensures var c, step := h.conns[id], C.Receive(C.Direct(tenant, to));
            Deliver(cfg, h, tenant, to).conns[id] ==
            if R.Lookup(h.registry.clients, R.Key(tenant, to)) == Some(id)
            then C.Apply(cfg, c, Log(h.topics, c.topicKey), step)
            else c
  {
    TargetIsThere(h, tenant, to);
  }

  /** Who a direct message comes from and whom it is for. */
  function AddressOf(es: seq<Event>, e: Event): Option<R.Key> {
    match e
    case DirectWs(c, to) =>
      var who := WhoIs(es, c);
      if who.None? then None else Some(R.Key(who.value.tenant, to))
    case DirectHttp(tenant, to) => Some(R.Key(tenant, to))
    case _ => None
  }

  function WithDirect(c: C.Conn, key: R.Key): C.Conn {
    var item := C.Direct(key.tenant, key.client);
    c.(box := c.box.(queue := c.box.queue + [item], taken := c.box.taken + [item]))
  }

  lemma ReceivesDirect(cfg: C.Config, c: C.Conn, log: seq<C.Message>, key: R.Key)
    ensures C.Apply(cfg, c, log, C.Receive(C.Direct(key.tenant, key.client)))
         == if C.HasRoom(cfg, c) then WithDirect(c, key) else c
  {
  }

  lemma DirectIsDelivered(cfg: C.Config, es: seq<Event>, h: Hub, e: Event)
    requires AllKnown(es, h) && Enabled(h, e) && AddressOf(es, e).Some?
    ensures Apply(cfg, h, e) == Deliver(cfg, h, AddressOf(es, e).value.tenant, AddressOf(es, e).value.client)
  {
  }

  lemma DirectChanges(cfg: C.Config, h: Hub, key: R.Key, id: nat)
    requires RegistryOk(h) && id in h.conns
    ensures var h', c := Deliver(cfg, h, key.tenant, key.client), h.conns[id];
            && h'.topics == h.topics && h'.registry == h.registry && h'.conns.Keys == h.conns.Keys
            && h'.conns[id] == if R.Lookup(h.registry.clients, key) == Some(id) && C.HasRoom(cfg, c)
                               then WithDirect(c, key) else c
  {
    DeliversToRegistered(cfg, h, key.tenant, key.client, id);
    TargetIsThere(h, key.tenant, key.client);
    ReceivesDirect(cfg, h.conns[id], Log(h.topics, h.conns[id].topicKey), key);
  }

  /** In every run in which nobody's entry was removed by another, a direct message by either entry is queued, once,
      for the last one to register under the sender's tenant and the name it gives who is still there, if there is
      room; and nothing else changes. */
  lemma DirectReachesOwner(cfg: C.Config, es: seq<Event>, h: Hub, e: Event, id: nat)
    requires Run(cfg, es) == Some(h) && R.Clean(h.ops) && Enabled(h, e) && AddressOf(es, e).Some? && id in h.conns
    ensures var h', c, key := Apply(cfg, h, e), h.conns[id], AddressOf(es, e).value;
            && h'.topics == h.topics && h'.registry == h.registry && h'.conns.Keys == h.conns.Keys
            && h'.conns[id] == if R.Owner(h.ops, key) == Some(id) && C.HasRoom(cfg, c) then WithDirect(c, key) else c
  {
    RunIsTold(cfg, es);
    RunKeepsInv(cfg, es);
    R.FaithfulExactly(h.ops);
    DirectIsDelivered(cfg, es, h, e);
    DirectChanges(cfg, h, AddressOf(es, e).value, id);
  }

  /** Who asks is always known, so every direct message has an address. */
  lemma SendersAreKnown(cfg: C.Config, es: seq<Event>, h: Hub, c: nat, to: string)
    requires Run(cfg, es) == Some(h) && Enabled(h, DirectWs(c, to))
    ensures AddressOf(es, DirectWs(c, to)) == Some(R.Key(h.conns[c].tenant, to))
  {
    RunIsTold(cfg, es);
  }

  // ----- The way out that skips the teardown

  /** If Ready could not be encoded, the connection would be gone but stay registered. */
  lemma AbandonedStaysRegistered(cfg: C.Config, tenant: string, client: string, raw: string)
    ensures var h := Run(cfg, Entry(tenant, client, raw) + [At(1, C.SendReady(false))]);
            && h.Some? && 1 in h.value.conns && h.value.conns[1].stage == C.Abandoned
            && R.Lookup(h.value.registry.clients, R.Key(tenant, client)) == Some(1)
  {
    Enters(cfg, tenant, client, raw);
    RunStep(cfg, Entry(tenant, client, raw), At(1, C.SendReady(false)));
  }

  /** Another connection of the same client registers, or acts on a look that found itself. */
  predicate Displaces(h: Hub, key: R.Key, id: nat, step: C.Step) {
    && id in h.conns && KeyOf(h.conns[id]) == key
    && (step.Register? || (step.Unregister? && h.conns[id].stage == C.Looked(true)))
  }

  ghost predicate AbandonedAt(h: Hub, id: nat, c: C.Conn) {
    && id in h.conns && h.conns[id] == c && c.stage == C.Abandoned
    && R.Lookup(h.registry.clients, KeyOf(c)) == Some(id)
  }

  lemma EntryStays(h: Hub, id: nat, key: R.Key, other: nat, step: C.Step)
    requires RegistryOk(h) && May(h, other, step) && other != id && R.Lookup(h.registry.clients, key) == Some(id)
    ensures R.Lookup(RegistryAfter(h.registry, h.conns[other], other, step).clients, key) == Some(id)
       <==> !Displaces(h, key, other, step)
  {
    assert Logged(h.registry, h.ops, other, h.conns[other]);
  }

  lemma AbandonedStep(cfg: C.Config, h: Hub, id: nat, c: C.Conn, other: nat, step: C.Step)
    requires RegistryOk(h) && May(h, other, step) && AbandonedAt(h, id, c) && C.StageInv(c)
    ensures AbandonedAt(Step(cfg, h, other, step), id, c) <==> !Displaces(h, KeyOf(c), other, step)
  {
    if other == id {
      C.AbandonedIsDead(cfg, c, Log(h.topics, c.topicKey), step);
    } else {
      EntryStays(h, id, KeyOf(c), other, step);
    }
  }

  lemma AbandonedRefuses(cfg: C.Config, h: Hub, id: nat, c: C.Conn, tenant: string, to: string)
    requires RegistryOk(h) && AbandonedAt(h, id, c) && C.StageInv(c)
    ensures AbandonedAt(Deliver(cfg, h, tenant, to), id, c)
  {
    var target := R.Lookup(h.registry.clients, R.Key(tenant, to));
    TargetIsThere(h, tenant, to);
    if target.Some? {
      AbandonedStep(cfg, h, id, c, target.value, C.Receive(C.Direct(tenant, to)));
    }
  }

  lemma AbandonedOtherwise(cfg: C.Config, h: Hub, id: nat, c: C.Conn, e: Event)
    requires AbandonedAt(h, id, c) && Fresh(h.conns, h.nextId) && Enabled(h, e)
    requires e.Connect? || e.PublishWs? || e.PublishHttp?
    ensures AbandonedAt(Apply(cfg, h, e), id, c)
  {
  }

  /** Whether a direct message gets into a queue, as `send_to_client` reports it. */
  predicate Delivered(cfg: C.Config, h: Hub, tenant: string, to: string) {
    var target := R.Lookup(h.registry.clients, R.Key(tenant, to));
    target.Some? && target.value in h.conns && C.Accepts(cfg, h.conns[target.value])
  }

  function WithoutEntry(h: Hub, key: R.Key): Hub {
    h.(registry := h.registry.(clients := h.registry.clients - {key}))
  }

  /** The entry it leaves makes no difference to any direct message: with it as without it, the same ones are
      delivered, to the same queues, and the others reported as not delivered. */
  lemma AbandonedChangesNoDelivery(cfg: C.Config, h: Hub, id: nat, c: C.Conn, tenant: string, to: string)
    requires RegistryOk(h) && AbandonedAt(h, id, c) && C.StageInv(c)
    ensures var without := WithoutEntry(h, KeyOf(c));
            && Delivered(cfg, h, tenant, to) == Delivered(cfg, without, tenant, to)
            && Deliver(cfg, h, tenant, to).conns == Deliver(cfg, without, tenant, to).conns
  {
    TargetIsThere(h, tenant, to);
    if R.Key(tenant, to) == KeyOf(c) {
      C.AbandonedIsDead(cfg, c, Log(h.topics, c.topicKey), C.Receive(C.Direct(tenant, to)));
    }
  }

  /** Nothing but another connection of the same client removes it; the abandoned one itself never does anything
      again, nor accepts what is sent to it. */
  lemma AbandonedStays(cfg: C.Config, h: Hub, id: nat, c: C.Conn, e: Event)
    requires RegistryOk(h) && Fresh(h.conns, h.nextId) && C.StageInv(c)
    requires Enabled(h, e) && AbandonedAt(h, id, c)
    ensures AbandonedAt(Apply(cfg, h, e), id, c) <==> !(e.At? && Displaces(h, KeyOf(c), e.c, e.step))
  {
    match e {
      case At(other, step) => AbandonedStep(cfg, h, id, c, other, step);
      case DirectWs(sender, to) => AbandonedRefuses(cfg, h, id, c, h.conns[sender].tenant, to);
      case DirectHttp(tenant, to) => AbandonedRefuses(cfg, h, id, c, tenant, to);
      case _ => AbandonedOtherwise(cfg, h, id, c, e);
    }
  }

  /** `es` leads from `h` to `h'`, and no other connection of `key` comes or goes on the way. */
  ghost predicate LeadsApart(cfg: C.Config, h: Hub, es: seq<Event>, key: R.Key, h': Hub)
    decreases |es|
  {
    if es == [] then h == h'
    else
      && Enabled(h, es[0]) && !(es[0].At? && Displaces(h, key, es[0].c, es[0].step))
      && LeadsApart(cfg, Apply(cfg, h, es[0]), es[1..], key, h')
  }

  lemma AbandonedLasts(cfg: C.Config, h: Hub, e: Event, id: nat, c: C.Conn)
    requires Inv(cfg, h) && Enabled(h, e) && AbandonedAt(h, id, c)
    requires !(e.At? && Displaces(h, KeyOf(c), e.c, e.step))
    ensures Inv(cfg, Apply(cfg, h, e)) && AbandonedAt(Apply(cfg, h, e), id, c)
  {
    ApplyKeepsInv(cfg, h, e);
    StageAt(cfg, h, id);
    AbandonedStays(cfg, h, id, c, e);
  }

  /** So the entry outlives every stretch of a run in which no other connection of that client comes or goes. */
  lemma {:induction false} AbandonedForever(cfg: C.Config, h: Hub, es: seq<Event>, id: nat, c: C.Conn, h': Hub)
    requires Inv(cfg, h) && AbandonedAt(h, id, c) && LeadsApart(cfg, h, es, KeyOf(c), h')
    ensures AbandonedAt(h', id, c)
    decreases |es|
  {
    if es != [] {
      AbandonedLasts(cfg, h, es[0], id, c);
      AbandonedForever(cfg, Apply(cfg, h, es[0]), es[1..], id, c, h');
    }
  }
}
