/** One connection of src/server.rs after the upgrade: its bounded outbound queue, the three tasks that run
    beside each other, and the way they are taken down.

    The topic's broadcast channel is the log of everything published since the start; a receiver is a cursor
    into it, and the channel keeps the last `ring` entries. */
module Connections {
  import opened Options
  import T = Topics

  datatype Config = Config(queueCapacity: nat, ring: nat)

  /** A published event: its publisher's tenant, the topic its text names, and the entry it came through. */
  datatype Message = Message(origin: string, topic: string, http: bool)

  /** What is queued for the client: encoded events, and the control frames of the reader. A broadcast remembers the
      key it was sent under and where in that key's log it stands; a direct message remembers its sender's tenant and
      its addressee. */
  datatype Item =
    | Plain
    | Control
    | Ready(topic: string)
    | Broadcast(message: Message, key: string, position: nat)
    | Direct(origin: string, to: string)

  /** The queue between everyone who has something to send and the writer. `taken` lists every item it ever
      accepted, `sent` what the writer handed to the socket. The counters are those of `send_encoded`. */
  datatype Outbox = Outbox(queue: seq<Item>, inFlight: Option<Item>, sent: seq<Item>, taken: seq<Item>,
                           attempts: nat, enqueued: nat, dropped: nat)

  /** The topic receiver: where it began, where it stands and what it was told it missed. */
  datatype Feed = Feed(start: nat, cursor: nat, lagged: set<nat>, refused: bool)

  datatype Task = NotStarted | Running | Stopped

  datatype Which = Reader | Writer | Fanout

  datatype Tasks = Tasks(reader: Task, writer: Task, fanout: Task) {
    function Of(which: Which): Task {
      match which case Reader => reader case Writer => writer case Fanout => fanout
    }

    function Stop(which: Which): Tasks {
      match which
      case Reader => this.(reader := Stopped)
      case Writer => this.(writer := Stopped)
      case Fanout => this.(fanout := Stopped)
    }
  }

  /** Where `connection_loop` stands. `Abandoned` is its early return when Ready cannot be encoded. */
  datatype Stage =
    | Subscribed
    | Registered
    | Abandoned
    | Watching
    | Ending(first: Which)
    | Joined
    | Looked(own: bool)
    | Finished

  datatype Conn = Conn(tenant: string, client: string, topicKey: string, stage: Stage, tasks: Tasks,
                       box: Outbox, feed: Feed, unregistrations: nat)

  datatype Step =
    | Register
    | SendReady(encodes: bool)
    | Receive(item: Item)
    | FanoutRecv
    | ReaderSend
    | ReaderControl
    | ReaderStop
    | WriterTake
    | WriterSend(ok: bool)
    | WriterPing(ok: bool)
    | Notice(which: Which)
    | Cancel(which: Which)
    | Join
    | Look(own: bool)
    | Unregister

  const ALL_STOPPED := Tasks(Stopped, Stopped, Stopped)

  function NewConn(tenant: string, client: string, topicKey: string, position: nat): Conn {
    Conn(tenant, client, topicKey, Subscribed, Tasks(NotStarted, NotStarted, NotStarted),
         Outbox([], None, [], [], 0, 0, 0), Feed(position, position, {}, false), 0)
  }

  /** The receiving end lives in the writer, and before that in `connection_loop` itself. */
  predicate Closed(c: Conn) {
    c.tasks.writer == Stopped || c.stage == Abandoned
  }

  predicate Accepts(cfg: Config, c: Conn) {
    !Closed(c) && |c.box.queue| < cfg.queueCapacity
  }

  function TrySend(box: Outbox, accepts: bool, item: Item): Outbox {
    if accepts then box.(queue := box.queue + [item], taken := box.taken + [item]) else box
  }

  function SendEncoded(box: Outbox, accepts: bool, item: Item): Outbox {
    var tried := TrySend(box, accepts, item);
    if accepts then tried.(attempts := box.attempts + 1, enqueued := box.enqueued + 1)
    else tried.(attempts := box.attempts + 1, dropped := box.dropped + 1)
  }

  function Range(from: nat, to: nat): (r: set<nat>)
    ensures forall p: nat :: p in r <==> from <= p < to
  {
    if from >= to then {} else Range(from, to - 1) + {to - 1}
  }

  predicate Lags(cfg: Config, feed: Feed, log: seq<Message>) {
    |log| - feed.cursor > cfg.ring
  }

  function Skip(cfg: Config, feed: Feed, log: seq<Message>): Feed
    requires Lags(cfg, feed, log)
  {
    feed.(lagged := feed.lagged + Range(feed.cursor, |log| - cfg.ring), cursor := |log| - cfg.ring)
  }

  predicate Enabled(c: Conn, log: seq<Message>, e: Step) {
    match e
    case Register => c.stage == Subscribed
    case SendReady(_) => c.stage == Registered
    case Receive(item) => item.Direct?
    case FanoutRecv => c.tasks.fanout == Running && c.feed.cursor < |log|
    case ReaderSend => c.tasks.reader == Running
    case ReaderControl => c.tasks.reader == Running
    case ReaderStop => c.tasks.reader == Running
    case WriterTake => c.tasks.writer == Running && c.box.inFlight.None? && c.box.queue != []
    case WriterSend(_) => c.tasks.writer == Running && c.box.inFlight.Some?
    case WriterPing(_) => c.tasks.writer == Running && c.box.inFlight.None?
    case Notice(which) => c.stage == Watching && c.tasks.Of(which) == Stopped
    case Cancel(which) => c.stage.Ending? && c.tasks.Of(which) == Running
    case Join => c.stage.Ending? && c.tasks == ALL_STOPPED
    case Look(_) => c.stage == Joined
    case Unregister => c.stage.Looked?
  }

  function BoxAfter(cfg: Config, c: Conn, log: seq<Message>, e: Step): Outbox
    requires Enabled(c, log, e)
  {
    var box, accepts := c.box, Accepts(cfg, c);
    match e
    case SendReady(encodes) =>
      if encodes then SendEncoded(box, accepts, Ready(T.ExtractTopic(c.topicKey))) else box
    case Receive(item) => TrySend(box, accepts, item)
    case FanoutRecv =>
      if Lags(cfg, c.feed, log) then box
      else SendEncoded(box, accepts, Broadcast(log[c.feed.cursor], c.topicKey, c.feed.cursor))
    case ReaderSend => SendEncoded(box, accepts, Plain)
    case ReaderControl => TrySend(box, accepts, Control)
    case WriterTake => box.(queue := box.queue[1..], inFlight := Some(box.queue[0]))
    case WriterSend(ok) => if ok then box.(sent := box.sent + [box.inFlight.value], inFlight := None) else box
    case _ => box
  }

  function FeedAfter(cfg: Config, c: Conn, log: seq<Message>, e: Step): Feed
    requires Enabled(c, log, e)
  {
    if !e.FanoutRecv? then c.feed
    else if Lags(cfg, c.feed, log) then Skip(cfg, c.feed, log)
    else c.feed.(cursor := c.feed.cursor + 1, refused := c.feed.refused || !Accepts(cfg, c))
  }

  function TasksAfter(cfg: Config, c: Conn, log: seq<Message>, e: Step): Tasks
    requires Enabled(c, log, e)
  {
    match e
    case SendReady(encodes) => if encodes then Tasks(Running, Running, Running) else c.tasks
    case FanoutRecv => if !Lags(cfg, c.feed, log) && !Accepts(cfg, c) then c.tasks.Stop(Fanout) else c.tasks
    case ReaderStop => c.tasks.Stop(Reader)
    case WriterSend(ok) => if ok then c.tasks else c.tasks.Stop(Writer)
    case WriterPing(ok) => if ok then c.tasks else c.tasks.Stop(Writer)
    case Cancel(which) => c.tasks.Stop(which)
    case _ => c.tasks
  }

  function StageAfter(c: Conn, e: Step): Stage {
    match e
    case Register => Registered
    case SendReady(encodes) => if encodes then Watching else Abandoned
    case Notice(which) => Ending(which)
    case Join => Joined
    case Look(own) => Looked(own)
    case Unregister => Finished
    case _ => c.stage
  }

  function Apply(cfg: Config, c: Conn, log: seq<Message>, e: Step): Conn
    requires Enabled(c, log, e)
  {
    c.(box := BoxAfter(cfg, c, log, e), feed := FeedAfter(cfg, c, log, e), tasks := TasksAfter(cfg, c, log, e),
       stage := StageAfter(c, e), unregistrations := c.unregistrations + if e.Unregister? then 1 else 0)
  }

  // ----- The queue

  ghost function Pipeline(box: Outbox): seq<Item> {
    box.sent + (if box.inFlight.Some? then [box.inFlight.value] else []) + box.queue
  }

  /** What goes through `send_encoded`. */
  predicate Counted(item: Item) {
    item.Plain? || item.Ready? || item.Broadcast?
  }

  function CountEncoded(items: seq<Item>): nat {
    if items == [] then 0 else CountEncoded(items[..|items| - 1]) + if Counted(items[|items| - 1]) then 1 else 0
  }

  lemma CountAppend(items: seq<Item>, item: Item)
    ensures CountEncoded(items + [item]) == CountEncoded(items) + if Counted(item) then 1 else 0
  {
    assert (items + [item])[..|items|] == items;
  }

  /** The queue is bounded, every attempt is accounted for, and the socket gets what the queue accepted, in
      order: all of it, but for what is still on its way. */
  ghost predicate BoxInv(cfg: Config, box: Outbox, writerStopped: bool) {
    && |box.queue| <= cfg.queueCapacity
    && box.attempts == box.enqueued + box.dropped && box.enqueued == CountEncoded(box.taken)
    && box.sent <= box.taken
    && (!writerStopped ==> box.taken == Pipeline(box))
  }

  lemma TryKeeps(cfg: Config, box: Outbox, stopped: bool, item: Item, accepts: bool)
    requires BoxInv(cfg, box, stopped) && (accepts ==> |box.queue| < cfg.queueCapacity && !stopped) && !Counted(item)
    ensures BoxInv(cfg, TrySend(box, accepts, item), stopped)
  {
    CountAppend(box.taken, item);
    if accepts {
      assert Pipeline(TrySend(box, accepts, item)) == Pipeline(box) + [item];
    }
  }

  lemma SendKeeps(cfg: Config, box: Outbox, stopped: bool, item: Item, accepts: bool)
    requires BoxInv(cfg, box, stopped) && (accepts ==> |box.queue| < cfg.queueCapacity && !stopped) && Counted(item)
    ensures BoxInv(cfg, SendEncoded(box, accepts, item), stopped)
  {
    CountAppend(box.taken, item);
    if accepts {
      assert Pipeline(SendEncoded(box, accepts, item)) == Pipeline(box) + [item];
    }
  }

  lemma BoxStep(cfg: Config, c: Conn, log: seq<Message>, e: Step)
    requires BoxInv(cfg, c.box, c.tasks.writer == Stopped) && Enabled(c, log, e)
    ensures BoxInv(cfg, BoxAfter(cfg, c, log, e), c.tasks.writer == Stopped)
  {
    var box, stopped, accepts := c.box, c.tasks.writer == Stopped, Accepts(cfg, c);
    match e
    case SendReady(_) => SendKeeps(cfg, box, stopped, Ready(T.ExtractTopic(c.topicKey)), accepts);
    case Receive(item) => TryKeeps(cfg, box, stopped, item, accepts);
    case FanoutRecv =>
      SendKeeps(cfg, box, stopped, Broadcast(log[c.feed.cursor], c.topicKey, c.feed.cursor), accepts);
    case ReaderSend => SendKeeps(cfg, box, stopped, Plain, accepts);
    case ReaderControl => TryKeeps(cfg, box, stopped, Control, accepts);
    case WriterTake => assert [box.queue[0]] + box.queue[1..] == box.queue;
    case _ =>
  }

  /** Whether a step is an attempt of `send_encoded`. */
  predicate SendsEncoded(cfg: Config, c: Conn, log: seq<Message>, e: Step) {
    match e
    case SendReady(encodes) => encodes
    case ReaderSend => true
    case FanoutRecv => |log| <= c.feed.cursor + cfg.ring
    case _ => false
  }

  /** The queue has room and its receiving end is there. */
  predicate HasRoom(cfg: Config, c: Conn) {
    |c.box.queue| < cfg.queueCapacity && c.tasks.writer != Stopped && c.stage != Abandoned
  }

  /** What a step offers to the queue. */
  function Offer(cfg: Config, c: Conn, log: seq<Message>, e: Step): Option<Item>
    requires Enabled(c, log, e)
  {
    match e
    case SendReady(encodes) => if encodes then Some(Ready(T.ExtractTopic(c.topicKey))) else None
    case Receive(item) => Some(item)
    case FanoutRecv =>
      if |log| <= c.feed.cursor + cfg.ring then Some(Broadcast(log[c.feed.cursor], c.topicKey, c.feed.cursor)) else None
    case ReaderSend => Some(Plain)
    case ReaderControl => Some(Control)
    case _ => None
  }

  /** The queue takes what it is offered when there is room, and nothing else. */
  lemma QueueTakesExactly(cfg: Config, c: Conn, log: seq<Message>, e: Step)
    requires Enabled(c, log, e)
    ensures var offer := Offer(cfg, c, log, e);
            BoxAfter(cfg, c, log, e).taken == c.box.taken + if offer.Some? && HasRoom(cfg, c) then [offer.value] else []
  {
  }

  /** Each attempt counts once, as enqueued when there is room and as dropped when there is none. */
  lemma EachAttemptCounts(cfg: Config, c: Conn, log: seq<Message>, e: Step)
    requires Enabled(c, log, e)
    ensures var box, sends := BoxAfter(cfg, c, log, e), SendsEncoded(cfg, c, log, e);
            && box.attempts == c.box.attempts + (if sends then 1 else 0)
            && box.enqueued == c.box.enqueued + (if sends && HasRoom(cfg, c) then 1 else 0)
            && box.dropped == c.box.dropped + (if sends && !HasRoom(cfg, c) then 1 else 0)
  {
  }

  // ----- The tasks

  ghost predicate StageInv(c: Conn) {
    && c.unregistrations == (if c.stage == Finished then 1 else 0)
    && (c.feed.refused ==> c.tasks.fanout == Stopped)
    && match c.stage
       case Watching => NotStarted !in {c.tasks.reader, c.tasks.writer, c.tasks.fanout}
       case Ending(first) =>
         NotStarted !in {c.tasks.reader, c.tasks.writer, c.tasks.fanout} && c.tasks.Of(first) == Stopped
       case Joined => c.tasks == ALL_STOPPED
       case Looked(_) => c.tasks == ALL_STOPPED
       case Finished => c.tasks == ALL_STOPPED
       case _ => c.tasks == Tasks(NotStarted, NotStarted, NotStarted)
  }

  lemma StageStep(cfg: Config, c: Conn, log: seq<Message>, e: Step)
    requires StageInv(c) && Enabled(c, log, e)
    ensures StageInv(Apply(cfg, c, log, e))
    ensures c.tasks.writer == Stopped ==> TasksAfter(cfg, c, log, e).writer == Stopped
  {
  }

  /** What stops each of the tasks, and nothing else does. */
  lemma TasksStopExactly(cfg: Config, c: Conn, log: seq<Message>, e: Step, which: Which)
    requires StageInv(c) && Enabled(c, log, e)
    ensures TasksAfter(cfg, c, log, e).Of(which) == Stopped
       <==> || c.tasks.Of(which) == Stopped || e == Cancel(which)
            || (which == Reader && e == ReaderStop)
            || (which == Writer && (e == WriterSend(false) || e == WriterPing(false)))
            || (which == Fanout && e == FanoutRecv && SendsEncoded(cfg, c, log, e) && !HasRoom(cfg, c))
  {
  }

  /** What each running task can do at any time: the reader whatever its client makes it do, the writer its next item
      or a ping, the fanout its next message. */
  lemma RunningTasksAct(c: Conn, log: seq<Message>)
    ensures c.tasks.reader == Running <==> Enabled(c, log, ReaderSend)
    ensures Enabled(c, log, ReaderSend) <==> Enabled(c, log, ReaderControl)
    ensures Enabled(c, log, ReaderSend) <==> Enabled(c, log, ReaderStop)
    ensures c.tasks.writer == Running <==>
            Enabled(c, log, WriterSend(true)) || Enabled(c, log, WriterPing(true))
    ensures c.tasks.writer == Running && c.box.queue != [] <==>
            Enabled(c, log, WriterTake) || (Enabled(c, log, WriterSend(true)) && c.box.queue != [])
    ensures c.tasks.fanout == Running && c.feed.cursor < |log| <==> Enabled(c, log, FanoutRecv)
  {
  }

  // ----- The topic receiver

  /** The log positions of the broadcasts among the items, in queue order. */
  ghost function Heard(items: seq<Item>): seq<nat> {
    if items == [] then []
    else
      var early, last := Heard(items[..|items| - 1]), items[|items| - 1];
      if last.Broadcast? then early + [last.position] else early
  }

  ghost predicate Ascending(s: seq<nat>) {
    forall i, j | 0 <= i < j < |s| :: s[i] < s[j]
  }

  /** Every position the cursor has passed was queued, once and in order, or reported as lag when the channel had
      already dropped it; a fanout that was refused has lost one more, the last. */
  ghost predicate FeedInv(cfg: Config, feed: Feed, heard: seq<nat>, length: nat) {
    && feed.start <= feed.cursor <= length
    && Ascending(heard)
    && (forall p | p in heard :: feed.start <= p < feed.cursor && p !in feed.lagged)
    && (forall p | p in feed.lagged :: feed.start <= p < feed.cursor && p + cfg.ring < length)
    && (feed.refused ==> feed.start < feed.cursor && feed.cursor - 1 !in heard && feed.cursor - 1 !in feed.lagged)
    && (forall p | feed.start <= p < feed.cursor - if feed.refused then 1 else 0 :: p in heard || p in feed.lagged)
  }

  lemma HeardAppend(items: seq<Item>, item: Item)
    ensures Heard(items + [item]) == if item.Broadcast? then Heard(items) + [item.position] else Heard(items)
  {
    assert (items + [item])[..|items|] == items;
  }

  lemma FeedAdvances(cfg: Config, feed: Feed, heard: seq<nat>, length: nat, accepted: bool)
    requires FeedInv(cfg, feed, heard, length) && feed.cursor < length && !feed.refused
    ensures FeedInv(cfg, feed.(cursor := feed.cursor + 1, refused := !accepted),
                    if accepted then heard + [feed.cursor] else heard, length)
  {
    var longer := heard + [feed.cursor];
    assert forall p | p in longer :: p in heard || p == feed.cursor;
    assert feed.cursor == longer[|heard|] && forall p | p in heard :: p in longer;
    assert Ascending(longer) by {
      forall i | 0 <= i < |heard| ensures longer[i] < feed.cursor {
        assert heard[i] in heard;
      }
    }
  }

  lemma FeedSkips(cfg: Config, feed: Feed, heard: seq<nat>, log: seq<Message>)
    requires FeedInv(cfg, feed, heard, |log|) && Lags(cfg, feed, log) && !feed.refused
    ensures FeedInv(cfg, Skip(cfg, feed, log), heard, |log|)
  {
  }

  /** A receiver that reports lag goes on with the oldest message still kept. */
  lemma LagLeavesOldest(cfg: Config, c: Conn, log: seq<Message>)
    requires Enabled(c, log, FanoutRecv) && c.feed.cursor + cfg.ring < |log|
    ensures var after := Apply(cfg, c, log, FanoutRecv);
            && after.feed.cursor == |log| - cfg.ring && after.box == c.box && after.tasks == c.tasks
            && forall p :: p in after.feed.lagged <==> p in c.feed.lagged || c.feed.cursor <= p < |log| - cfg.ring
  {
  }

  lemma OthersKeepHeard(cfg: Config, c: Conn, log: seq<Message>, e: Step)
    requires Enabled(c, log, e) && !e.FanoutRecv?
    ensures Heard(BoxAfter(cfg, c, log, e).taken) == Heard(c.box.taken)
  {
    HeardAppend(c.box.taken, Plain);
    HeardAppend(c.box.taken, Control);
    HeardAppend(c.box.taken, Ready(T.ExtractTopic(c.topicKey)));
    if e.Receive? {
      HeardAppend(c.box.taken, e.item);
    }
  }

  lemma FanoutTakes(cfg: Config, c: Conn, log: seq<Message>)
    requires Enabled(c, log, FanoutRecv) && !Lags(cfg, c.feed, log)
    ensures var heard := Heard(c.box.taken);
            Heard(BoxAfter(cfg, c, log, FanoutRecv).taken) == if Accepts(cfg, c) then heard + [c.feed.cursor] else heard
  {
    HeardAppend(c.box.taken, Broadcast(log[c.feed.cursor], c.topicKey, c.feed.cursor));
  }

  lemma FanoutHears(cfg: Config, c: Conn, log: seq<Message>)
    requires FeedInv(cfg, c.feed, Heard(c.box.taken), |log|) && !c.feed.refused
    requires Enabled(c, log, FanoutRecv) && !Lags(cfg, c.feed, log)
    ensures FeedInv(cfg, FeedAfter(cfg, c, log, FanoutRecv), Heard(BoxAfter(cfg, c, log, FanoutRecv).taken), |log|)
  {
    FanoutTakes(cfg, c, log);
    FeedAdvances(cfg, c.feed, Heard(c.box.taken), |log|, Accepts(cfg, c));
  }

  lemma FeedStep(cfg: Config, c: Conn, log: seq<Message>, e: Step)
    requires FeedInv(cfg, c.feed, Heard(c.box.taken), |log|) && StageInv(c) && Enabled(c, log, e)
    ensures FeedInv(cfg, FeedAfter(cfg, c, log, e), Heard(BoxAfter(cfg, c, log, e).taken), |log|)
  {
    if !e.FanoutRecv? {
      OthersKeepHeard(cfg, c, log, e);
    } else if Lags(cfg, c.feed, log) {
      FeedSkips(cfg, c.feed, Heard(c.box.taken), log);
    } else {
      FanoutHears(cfg, c, log);
    }
  }

  // ----- All of it

  ghost predicate ConnInv(cfg: Config, c: Conn, log: seq<Message>) {
    BoxInv(cfg, c.box, c.tasks.writer == Stopped) && StageInv(c) && FeedInv(cfg, c.feed, Heard(c.box.taken), |log|)
  }

  lemma ConnStep(cfg: Config, c: Conn, log: seq<Message>, e: Step)
    requires ConnInv(cfg, c, log) && Enabled(c, log, e)
    ensures ConnInv(cfg, Apply(cfg, c, log, e), log)
  {
    BoxStep(cfg, c, log, e);
    StageStep(cfg, c, log, e);
    FeedStep(cfg, c, log, e);
  }

  // ----- The end of a connection

  /** Some task has stopped, or the teardown that follows has got further. */
  predicate Closing(c: Conn) {
    match c.stage
    case Watching => Stopped in {c.tasks.reader, c.tasks.writer, c.tasks.fanout}
    case Ending(_) => true
    case Joined => true
    case Looked(_) => true
    case Finished => true
    case _ => false
  }

  /** The steps by which `connection_loop` itself gets on. */
  predicate TearsDown(e: Step) {
    e.Notice? || e.Cancel? || e.Join? || e.Look? || e.Unregister?
  }

  function RunningTasks(tasks: Tasks): nat {
    (if tasks.reader == Running then 1 else 0) + (if tasks.writer == Running then 1 else 0)
    + (if tasks.fanout == Running then 1 else 0)
  }

  /** How many steps of the teardown can still come. */
  function Remaining(c: Conn): nat {
    RunningTasks(c.tasks) +
    match c.stage
    case Finished => 0
    case Looked(_) => 1
    case Joined => 2
    case Ending(_) => 3
    case _ => 4
  }

  /** A message that the queue refused to the fanout, like any other end of a task, closes the connection. */
  lemma RefusedCloses(c: Conn)
    requires StageInv(c) && (c.feed.refused || Stopped in {c.tasks.reader, c.tasks.writer, c.tasks.fanout})
    ensures Closing(c)
  {
  }

  /** Whatever happens to a closing connection, it stays one and comes no further from its end; its own steps
      bring it nearer. */
  lemma ClosingStays(cfg: Config, c: Conn, log: seq<Message>, e: Step)
    requires StageInv(c) && Closing(c) && Enabled(c, log, e)
    ensures var c' := Apply(cfg, c, log, e);
            Closing(c') && Remaining(c') <= Remaining(c) - if TearsDown(e) then 1 else 0
  {
  }

  /** The next step of the teardown; `own` is what a look into the registry would find. */
  function NextStep(c: Conn, own: bool): Step
    requires StageInv(c) && Closing(c) && c.stage != Finished
  {
    var tasks := c.tasks;
    match c.stage
    case Watching =>
      Notice(if tasks.reader == Stopped then Reader else if tasks.writer == Stopped then Writer else Fanout)
    case Ending(_) =>
      if tasks.reader == Running then Cancel(Reader)
      else if tasks.writer == Running then Cancel(Writer)
      else if tasks.fanout == Running then Cancel(Fanout)
      else Join
    case Joined => Look(own)
    case _ => Unregister
  }

  /** Until it has finished, there is always one it can take. */
  lemma ClosingMoves(c: Conn, log: seq<Message>, own: bool)
    requires StageInv(c) && Closing(c) && c.stage != Finished
    ensures Enabled(c, log, NextStep(c, own)) && TearsDown(NextStep(c, own))
  {
  }

  /** The run in which nothing else happens. */
  ghost predicate Leads(cfg: Config, c: Conn, log: seq<Message>, steps: seq<Step>, c': Conn)
    decreases |steps|
  {
    if steps == [] then c == c'
    else Enabled(c, log, steps[0]) && Leads(cfg, Apply(cfg, c, log, steps[0]), log, steps[1..], c')
  }

  /** Left to itself, a closing connection gets to its end in as many steps as remain, at most. */
  lemma {:induction false} EndsByItself(cfg: Config, c: Conn, log: seq<Message>, own: bool)
    returns (steps: seq<Step>, last: Conn)
    requires StageInv(c) && Closing(c)
    ensures Leads(cfg, c, log, steps, last) && last.stage == Finished
    ensures |steps| <= Remaining(c) && forall i | 0 <= i < |steps| :: TearsDown(steps[i])
    decreases Remaining(c)
  {
    steps, last := [], c;
    if c.stage != Finished {
      var e := NextStep(c, own);
      ClosingMoves(c, log, own);
      ClosingStays(cfg, c, log, e);
      StageStep(cfg, c, log, e);
      var rest;
      rest, last := EndsByItself(cfg, Apply(cfg, c, log, e), log, own);
      steps := [e] + rest;
      assert steps[1..] == rest;
    }
  }

  /** The early return leaves nothing running: such a connection can only be sent to, and never accepts. */
  lemma AbandonedIsDead(cfg: Config, c: Conn, log: seq<Message>, e: Step)
    requires StageInv(c) && c.stage == Abandoned && Enabled(c, log, e)
    ensures e.Receive? && Apply(cfg, c, log, e) == c
  {
  }
}
