/** The app server as a step relation (code-rs/app-server/src/lib.rs and
    transport.rs).  The connection tasks, the processor task and the outbound
    router task interleave freely; they share the route table and the
    per-connection flags and are linked by bounded FIFO channels.

    Each step is what one task does between two points where another task can
    be scheduled, except that the router reads the flags of all connections in
    one step.  Its biased `select!` is one step that prefers the control channel.
    Fields below the `history` line are never read by a step's guard; they record
    what happened so that properties of whole runs can be stated about one
    state. */
module AppServer {
  import opened Text
  import opened RequestRouting

  const CHANNEL_CAPACITY := 128

  datatype Mode = Stdio | WebSocket

  datatype Incoming = InRequest(id: RequestId, read: nat) | InOther

  datatype TransportEvent =
    | ConnectionOpened(conn: ConnectionId)
    | ConnectionClosed(conn: ConnectionId)
    | IncomingMessage(conn: ConnectionId, message: Incoming)

  datatype ControlEvent = Opened(conn: ConnectionId) | Closed(conn: ConnectionId)

  /** The task that received one connection. */
  datatype Socket = Handshaking | Reading | Closing | Ended

  /** The queue in front of one connection's writer, and what the writer has
      taken from it so far (history). */
  datatype Writer = Writer(queue: seq<Message>, open: bool, taken: seq<Message>) {
    function Sent(): seq<Message> {
      taken + queue
    }
  }

  datatype Session = Session(initialized: bool, optedOut: set<string>)

  /** An envelope to be sent: an answer to the `ordinal`-th accepted request, or
      anything that is not an answer. */
  datatype Send = SendAnswer(ordinal: nat, success: bool, body: string) | SendOther(envelope: Envelope)

  datatype Processor =
    | Idle
    | Opening(conn: ConnectionId)              // about to send Opened
    | Handling(conn: ConnectionId, publishing: bool, sending: Option<Send>)  // sending: waits for the outgoing channel
    | WaitingForRoutes(conn: ConnectionId)
    | SendingClosed(conn: ConnectionId)
    | RemovingConnection(conn: ConnectionId)
    | RemovingRoutes(conn: ConnectionId)
    | ProcessorExited
  {
    /** The connection whose close is being processed. */
    predicate IsClosing() {
      WaitingForRoutes? || SendingClosed? || RemovingConnection? || RemovingRoutes?
    }
  }

  /** `origin` is history: the read whose answer is in the router's hands. */
  datatype Router =
    | RouterIdle
    | Rewritten(envelope: Envelope, origin: Option<nat>)
    | Delivering(message: Message, targets: seq<ConnectionId>, origin: Option<nat>)
    | Flushing
    | RouterExited

  // ---------------------------------------------------------------- history

  /** What became of a request a connection task read. */
  datatype Fate =
    | Queued                    // in the transport channel
    | Routed(ordinal: nat)      // accepted, its route is in the table
    | InFlight                  // route removed, answer not yet delivered
    | Answered                  // answer put into the connection's writer queue
    | Lost                      // the connection was gone when the answer came
    | Refused(told: bool)       // channel full; told: overload error queued
    | Dropped                   // the processor no longer knew the connection
    | Unheard                   // the processor had exited
    | Vanished                  // route removed with its connection

  datatype Received = Received(conn: ConnectionId, id: RequestId, fate: Fate)

  /** An answer put into the writer queue of `conn`. */
  datatype Answer = Answer(conn: ConnectionId, id: RequestId, read: nat)

  /** How far a connection's registration with the router got. */
  datatype Stage = Unannounced | Announced | BeingOpened | Controlled | Registered | Unregistered

  datatype State = State(
    mode: Mode,
    // connection tasks
    nextConnectionId: nat,
    sockets: map<ConnectionId, Socket>,
    writers: map<ConnectionId, Writer>,
    // channels
    transport: seq<TransportEvent>,
    outgoing: seq<Envelope>,
    control: seq<ControlEvent>,
    // processor task
    processor: Processor,
    connections: map<ConnectionId, Session>,
    listeners: map<nat, ConnectionId>,
    nextOrdinal: nat,
    // shared
    routes: RouteTable,
    initializedFlags: set<ConnectionId>,
    optOutFlags: map<ConnectionId, set<string>>,
    // router task
    router: Router,
    outbound: set<ConnectionId>,
    pendingClosed: seq<ConnectionId>,
    // history
    received: seq<Received>,
    accepted: seq<nat>,
    answers: seq<Answer>,
    failed: set<ConnectionId>,
    stages: map<ConnectionId, Stage>,
    routerCloses: seq<ConnectionId>
  )

  predicate Init(s: State) {
    && s.transport == [] && s.outgoing == [] && s.control == []
    && s.processor == Idle && s.router == RouterIdle
    && s.connections == map[] && s.listeners == map[] && s.nextOrdinal == 0
    && s.routes == map[] && s.initializedFlags == {} && s.optOutFlags == map[]
    && s.outbound == {} && s.pendingClosed == []
    && s.received == [] && s.accepted == [] && s.answers == [] && s.failed == {} && s.routerCloses == []
    && s.nextConnectionId == 1
    && (match s.mode
        case WebSocket => s.sockets == map[] && s.writers == map[] && s.stages == map[]
        case Stdio =>
          && s.sockets == map[0 := Handshaking]
          && s.writers == map[0 := Writer([], true, [])]
          && s.stages == map[0 := Unannounced])
  }

  datatype Step =
    // connection tasks
    | Accept
    | Announce(conn: ConnectionId)
    | ReadRequest(conn: ConnectionId, id: RequestId)
    | ReadOther(conn: ConnectionId)
    | Disconnect(conn: ConnectionId)
    | AnnounceClose(conn: ConnectionId)
    | DrainWriter(conn: ConnectionId)
    | CloseWriter(conn: ConnectionId)
    // processor task
    | TakeOpened
    | SendOpened
    | TakeRequest
    | SetOptOut(methods: set<string>)
    | MarkInitialized
    | PublishInitialized
    | AddListener(subscription: nat)
    | RemoveListener(subscription: nat)
    | HandlerSends(send: Send)
    | HandlerSent
    | HandlerSendFails
    | FinishRequest
    | TakeOther
    | TakeClosed
    | RoutesDrained
    | SendClosed
    | RemoveConnection
    | RemoveRoutes
    | RouterGone
    // listener tasks and tasks that handlers left behind
    | Emit(send: Send)
    // router task
    | RouterControl
    | RouterTake
    | RouterTargets(order: seq<ConnectionId>)
    | RouterDeliver
    | RouterDelivered
    | RouterFlush
    | RouterFlushed
    | RouterExit
  {
    predicate IsConnectionStep() {
      || Accept? || Announce? || ReadRequest? || ReadOther? || Disconnect? || AnnounceClose?
      || DrainWriter? || CloseWriter?
    }

    predicate IsRouterStep() {
      || RouterControl? || RouterTake? || RouterTargets? || RouterDeliver? || RouterDelivered?
      || RouterFlush? || RouterFlushed? || RouterExit?
    }
  }

  // ------------------------------------------------------------- components

  function SetFate(received: seq<Received>, r: nat, fate: Fate): (result: seq<Received>)
    requires r < |received|
    ensures |result| == |received|
  {
    received[r := received[r].(fate := fate)]
  }

  function SetFateOf(received: seq<Received>, origin: Option<nat>, fate: Fate): (result: seq<Received>)
    ensures |result| == |received|
  {
    if origin.Some? && origin.value < |received| then SetFate(received, origin.value, fate) else received
  }

  /** The routed requests of a removed connection lose their route. */
  function VanishRoutesOf(received: seq<Received>, conn: ConnectionId): (result: seq<Received>)
    ensures |result| == |received|
  {
    seq(|received|, i requires 0 <= i < |received| =>
      if received[i].conn == conn && received[i].fate.Routed? then received[i].(fate := Vanished) else received[i])
  }

  function WithoutListenersOf(listeners: map<nat, ConnectionId>, conn: ConnectionId): map<nat, ConnectionId> {
    map u | u in listeners && listeners[u] != conn :: listeners[u]
  }

  predicate ShouldSkip(s: State, conn: ConnectionId, message: Message) {
    message.Notification? && conn in s.optOutFlags && message.name in s.optOutFlags[conn]
  }

  /** The connections a rewritten envelope is delivered to. */
  function Targets(s: State, envelope: Envelope): set<ConnectionId> {
    match envelope
    case ToConnection(c, m) => set d | d in s.outbound && d == c && !ShouldSkip(s, c, m)
    case Broadcast(m) => set d | d in s.outbound && d in s.initializedFlags && !ShouldSkip(s, d, m)
  }

  predicate Enumerates(order: seq<ConnectionId>, items: set<ConnectionId>) {
    && (forall i | 0 <= i < |order| :: order[i] in items)
    && (forall d | d in items :: d in order)
    && (forall i, j | 0 <= i < j < |order| :: order[i] != order[j])
  }

  /** `try_send` into the writer of `conn` succeeds. */
  predicate WriterAccepts(s: State, conn: ConnectionId) {
    conn in s.writers && s.writers[conn].open && |s.writers[conn].queue| < CHANNEL_CAPACITY
  }

  function PushWriter(s: State, conn: ConnectionId, message: Message): map<ConnectionId, Writer>
    requires conn in s.writers
  {
    s.writers[conn := s.writers[conn].(queue := s.writers[conn].queue + [message])]
  }

  /** A stdio writer that is full makes the router wait; a WebSocket writer
      that is full counts as failed. */
  predicate WriterBlocks(s: State, conn: ConnectionId) {
    && s.mode.Stdio? && conn in s.writers && s.writers[conn].open
    && |s.writers[conn].queue| >= CHANNEL_CAPACITY
  }

  predicate HasRoom<T>(channel: seq<T>) {
    |channel| < CHANNEL_CAPACITY
  }

  // ------------------------------------------------------------------ steps

  predicate Enabled(s: State, step: Step) {
    match step
    case Accept => s.mode.WebSocket?
    case Announce(c) =>
      c in s.sockets && s.sockets[c].Handshaking? && !s.processor.ProcessorExited? && HasRoom(s.transport)
    case ReadRequest(c, id) =>
      c in s.sockets && s.sockets[c].Reading? && c in s.writers
    case ReadOther(c) =>
      c in s.sockets && s.sockets[c].Reading? && (s.processor.ProcessorExited? || HasRoom(s.transport))
    case Disconnect(c) =>
      c in s.sockets && s.sockets[c].Reading?
    case AnnounceClose(c) =>
      c in s.sockets && s.sockets[c].Closing? && (s.processor.ProcessorExited? || HasRoom(s.transport))
    case DrainWriter(c) =>
      c in s.writers && s.writers[c].queue != []
    case CloseWriter(c) =>
      c in s.writers

    case TakeOpened => s.processor.Idle? && s.transport != [] && s.transport[0].ConnectionOpened?
    case SendOpened => s.processor.Opening? && !s.router.RouterExited? && HasRoom(s.control)
    case TakeRequest =>
      && s.processor.Idle? && s.transport != [] && s.transport[0].IncomingMessage?
      && s.transport[0].message.InRequest? && s.transport[0].message.read < |s.received|
    case SetOptOut(_) => InHandler(s) && !s.connections[s.processor.conn].initialized
    case MarkInitialized => InHandler(s) && !s.connections[s.processor.conn].initialized
    case PublishInitialized => s.processor.Handling? && s.processor.publishing
    case AddListener(u) => InHandler(s) && u !in s.listeners
    case RemoveListener(u) => InHandler(s) && u in s.listeners && s.listeners[u] == s.processor.conn
    case HandlerSends(send) => InHandler(s) && IsSendable(s, send)
    case HandlerSent =>
      && HandlerWaits(s) && IsSendable(s, s.processor.sending.value)
      && !s.router.RouterExited? && HasRoom(s.outgoing)
    case HandlerSendFails => HandlerWaits(s) && s.router.RouterExited?
    case FinishRequest => InHandler(s)
    case TakeOther =>
      && s.processor.Idle? && s.transport != [] && s.transport[0].IncomingMessage?
      && s.transport[0].message.InOther?
    case TakeClosed => s.processor.Idle? && s.transport != [] && s.transport[0].ConnectionClosed?
    case RoutesDrained => s.processor.WaitingForRoutes? && !HasRoutesOf(s.routes, s.processor.conn)
    case SendClosed => s.processor.SendingClosed? && !s.router.RouterExited? && HasRoom(s.control)
    case RemoveConnection => s.processor.RemovingConnection?
    case RemoveRoutes => s.processor.RemovingRoutes?
    case RouterGone => (s.processor.Opening? || s.processor.SendingClosed?) && s.router.RouterExited?

    case Emit(send) => IsSendable(s, send) && !s.router.RouterExited? && HasRoom(s.outgoing)

    case RouterControl => s.router.RouterIdle? && s.control != []
    case RouterTake =>
      s.router.RouterIdle? && s.control == [] && !s.processor.ProcessorExited? && s.outgoing != []
    case RouterTargets(order) => s.router.Rewritten? && Enumerates(order, Targets(s, s.router.envelope))
    case RouterDeliver => s.router.Delivering? && s.router.targets != [] && !WriterBlocks(s, s.router.targets[0])
    case RouterDelivered => s.router.Delivering? && s.router.targets == []
    case RouterFlush =>
      s.router.Flushing? && s.pendingClosed != [] && !s.processor.ProcessorExited? && HasRoom(s.transport)
    case RouterFlushed =>
      s.router.Flushing? && (s.pendingClosed == [] || (!s.processor.ProcessorExited? && !HasRoom(s.transport)))
    case RouterExit =>
      && s.processor.ProcessorExited?
      && ((s.router.Flushing? && s.pendingClosed != []) || (s.router.RouterIdle? && s.control == []))
  }

  /** A request handler is running; it owes no flag update and waits for nothing. */
  predicate InHandler(s: State) {
    s.processor.Handling? && !s.processor.publishing && s.processor.sending.None? && s.processor.conn in s.connections
  }

  /** A request handler is in the middle of a send. */
  predicate HandlerWaits(s: State) {
    s.processor.Handling? && !s.processor.publishing && s.processor.sending.Some?
  }

  /** Answers are sent under ids the processor gave out. */
  predicate IsSendable(s: State, send: Send) {
    match send
    case SendAnswer(n, _, _) => n < |s.accepted| && s.accepted[n] < |s.received|
    case SendOther(e) => !e.message.IsAnswer()
  }

  function ApplyAccept(s: State): State {
    var c := s.nextConnectionId;
    s.(nextConnectionId := c + 1,
       sockets := s.sockets[c := Handshaking],
       writers := s.writers[c := Writer([], true, [])],
       stages := s.stages[c := Unannounced])
  }

  function ApplyAnnounce(s: State, c: ConnectionId): State {
    s.(sockets := s.sockets[c := Reading],
       transport := s.transport + [ConnectionOpened(c)],
       stages := s.stages[c := Announced])
  }

  function EnqueueRequest(s: State, c: ConnectionId, id: RequestId): State {
    s.(received := s.received + [Received(c, id, Queued)],
       transport := s.transport + [IncomingMessage(c, InRequest(id, |s.received|))])
  }

  function RefuseRequest(s: State, c: ConnectionId, id: RequestId): State
    requires c in s.writers
  {
    s.(received := s.received + [Received(c, id, Refused(true))],
       writers := PushWriter(s, c, Error(id, "Server overloaded; retry later.")),
       answers := s.answers + [Answer(c, id, |s.received|)])
  }

  function LoseRequest(s: State, c: ConnectionId, id: RequestId, fate: Fate, stop: bool): State {
    s.(received := s.received + [Received(c, id, fate)],
       sockets := if stop then s.sockets[c := Closing] else s.sockets)
  }

  /** `enqueue_incoming_message` for a request. */
  function ApplyReadRequest(s: State, c: ConnectionId, id: RequestId): State
    requires Enabled(s, ReadRequest(c, id))
  {
    if s.processor.ProcessorExited? then LoseRequest(s, c, id, Unheard, true)
    else if HasRoom(s.transport) then EnqueueRequest(s, c, id)
    else if WriterAccepts(s, c) then RefuseRequest(s, c, id)
    else LoseRequest(s, c, id, Refused(false), !s.writers[c].open)
  }

  function ApplyReadOther(s: State, c: ConnectionId): State {
    var exited := s.processor.ProcessorExited?;
    s.(sockets := if exited then s.sockets[c := Closing] else s.sockets,
       transport := if exited then s.transport else s.transport + [IncomingMessage(c, InOther)])
  }

  function ApplyAnnounceClose(s: State, c: ConnectionId): State {
    s.(sockets := s.sockets[c := Ended],
       transport := if s.processor.ProcessorExited? then s.transport else s.transport + [ConnectionClosed(c)])
  }

  function ApplySendOpened(s: State): State
    requires Enabled(s, SendOpened)
  {
    var c := s.processor.conn;
    s.(control := s.control + [Opened(c)],
       connections := s.connections[c := Session(false, {})],
       processor := Idle,
       stages := s.stages[c := Controlled])
  }

  /** A request from a connection the processor does not know. */
  function DropRequest(s: State): State
    requires Enabled(s, TakeRequest)
  {
    s.(transport := s.transport[1..],
       received := SetFate(s.received, s.transport[0].message.read, Dropped))
  }

  /** Gives the request an internal id, records its route and starts its handler. */
  function AcceptRequest(s: State): State
    requires Enabled(s, TakeRequest)
  {
    var c, request, n := s.transport[0].conn, s.transport[0].message, s.nextOrdinal;
    s.(transport := s.transport[1..],
       nextOrdinal := n + 1,
       routes := s.routes[InternalId(c, n) := Route(c, request.id, request.read)],
       processor := Handling(c, false, None),
       received := SetFate(s.received, request.read, Routed(n)),
       accepted := s.accepted + [request.read])
  }

  function ApplyTakeRequest(s: State): State
    requires Enabled(s, TakeRequest)
  {
    if s.transport[0].conn in s.connections then AcceptRequest(s) else DropRequest(s)
  }

  function ApplyTakeClosed(s: State): State
    requires Enabled(s, TakeClosed)
  {
    var c := s.transport[0].conn;
    s.(transport := s.transport[1..],
       processor := if s.mode.Stdio? then WaitingForRoutes(c) else SendingClosed(c),
       listeners := if s.mode.Stdio? then WithoutListenersOf(s.listeners, c) else s.listeners)
  }

  function ApplyRemoveRoutes(s: State): State
    requires Enabled(s, RemoveRoutes)
  {
    var c := s.processor.conn;
    s.(routes := WithoutRoutesOf(s.routes, c),
       received := VanishRoutesOf(s.received, c),
       listeners := WithoutListenersOf(s.listeners, c),
       processor := if s.mode.Stdio? && s.connections == map[] then ProcessorExited else Idle)
  }

  function ApplyProcessor(s: State, step: Step): State
    requires Enabled(s, step)
    requires !step.IsConnectionStep() && !step.IsRouterStep() && !step.Emit? && !step.HandlerSent?
  {
    match step
    case TakeOpened =>
      var c := s.transport[0].conn;
      s.(transport := s.transport[1..], processor := Opening(c), stages := s.stages[c := BeingOpened])
    case SendOpened => ApplySendOpened(s)
    case TakeRequest => ApplyTakeRequest(s)
    case SetOptOut(methods) =>
      var c := s.processor.conn;
      s.(connections := s.connections[c := s.connections[c].(optedOut := methods)],
         optOutFlags := s.optOutFlags[c := methods])
    case MarkInitialized =>
      var c := s.processor.conn;
      s.(connections := s.connections[c := s.connections[c].(initialized := true)],
         processor := Handling(c, true, None))
    case PublishInitialized =>
      s.(initializedFlags := s.initializedFlags + {s.processor.conn},
         processor := Handling(s.processor.conn, false, None))
    case AddListener(u) => s.(listeners := s.listeners[u := s.processor.conn])
    case RemoveListener(u) => s.(listeners := s.listeners - {u})
    case HandlerSends(send) => s.(processor := Handling(s.processor.conn, false, Some(send)))
    case HandlerSendFails => s.(processor := Handling(s.processor.conn, false, None))
    case FinishRequest => s.(processor := Idle)
    case TakeOther => s.(transport := s.transport[1..])
    case TakeClosed => ApplyTakeClosed(s)
    case RoutesDrained => s.(processor := SendingClosed(s.processor.conn))
    case SendClosed =>
      s.(control := s.control + [Closed(s.processor.conn)], processor := RemovingConnection(s.processor.conn))
    case RemoveConnection =>
      s.(connections := s.connections - {s.processor.conn}, processor := RemovingRoutes(s.processor.conn))
    case RemoveRoutes => ApplyRemoveRoutes(s)
    case RouterGone => s.(processor := ProcessorExited)
  }

  function EnvelopeOf(s: State, send: Send): Envelope
    requires IsSendable(s, send)
  {
    match send
    case SendAnswer(n, success, body) =>
      var id := InternalId(s.received[s.accepted[n]].conn, n);
      Broadcast(if success then Response(id, body) else Error(id, body))
    case SendOther(e) => e
  }

  function ApplyEmit(s: State, send: Send): State
    requires IsSendable(s, send)
  {
    s.(outgoing := s.outgoing + [EnvelopeOf(s, send)])
  }

  /** The handler's envelope found room and the handler goes on. */
  function ApplyHandlerSent(s: State): State
    requires Enabled(s, HandlerSent)
  {
    ApplyEmit(s, s.processor.sending.value).(processor := Handling(s.processor.conn, false, None))
  }

  function ApplyRouterControl(s: State): State
    requires Enabled(s, RouterControl)
  {
    var c := s.control[0].conn;
    var isOpened := s.control[0].Opened?;
    s.(control := s.control[1..],
       router := Flushing,
       outbound := if isOpened then s.outbound + {c} else s.outbound - {c},
       stages := if isOpened then s.stages[c := Registered]
                 else if c in s.outbound then s.stages[c := Unregistered] else s.stages)
  }

  /** The read whose answer `envelope` carries, if its route is still there. */
  function OriginOf(s: State, envelope: Envelope): Option<nat> {
    if envelope.Broadcast? && envelope.message.IsAnswer() && envelope.message.id in s.routes
    then Some(s.routes[envelope.message.id].read) else None
  }

  /** Receives an envelope and rewrites it; an answer loses its route here. */
  function ApplyRouterTake(s: State): State
    requires Enabled(s, RouterTake)
  {
    var (rewritten, routes) := Rewrite(s.outgoing[0], s.routes);
    var origin := OriginOf(s, s.outgoing[0]);
    s.(outgoing := s.outgoing[1..],
       routes := routes,
       received := SetFateOf(s.received, origin, InFlight),
       router := if rewritten.Some? then Rewritten(rewritten.value, origin) else RouterIdle)
  }

  function ApplyRouterTargets(s: State, order: seq<ConnectionId>): State
    requires Enabled(s, RouterTargets(order))
  {
    s.(router := Delivering(s.router.envelope.message, order, s.router.origin),
       received := if order == [] then SetFateOf(s.received, s.router.origin, Lost) else s.received)
  }

  /** The next target took the message. */
  function DeliverTo(s: State, c: ConnectionId): State
    requires s.router.Delivering? && s.router.targets != [] && c in s.writers
  {
    var message, origin := s.router.message, s.router.origin;
    s.(router := Delivering(message, s.router.targets[1..], origin),
       writers := PushWriter(s, c, message),
       received := SetFateOf(s.received, origin, Answered),
       answers := if origin.Some? && message.IsAnswer() then s.answers + [Answer(c, message.id, origin.value)]
                  else s.answers)
  }

  /** The next target's writer failed: the connection is unregistered and its
      close is queued. */
  function DisconnectTarget(s: State, c: ConnectionId): State
    requires s.router.Delivering? && s.router.targets != []
  {
    s.(router := Delivering(s.router.message, s.router.targets[1..], s.router.origin),
       outbound := s.outbound - {c},
       pendingClosed := s.pendingClosed + [c],
       received := SetFateOf(s.received, s.router.origin, Lost),
       failed := s.failed + {c},
       stages := s.stages[c := Unregistered],
       routerCloses := s.routerCloses + [c])
  }

  /** The next target is no longer registered. */
  function SkipTarget(s: State): State
    requires s.router.Delivering? && s.router.targets != []
  {
    s.(router := Delivering(s.router.message, s.router.targets[1..], s.router.origin),
       received := SetFateOf(s.received, s.router.origin, Lost))
  }

  /** `is_connection_write_failed` for the next target. */
  function ApplyRouterDeliver(s: State): State
    requires Enabled(s, RouterDeliver)
  {
    var c := s.router.targets[0];
    if c !in s.outbound then SkipTarget(s)
    else if WriterAccepts(s, c) then DeliverTo(s, c)
    else DisconnectTarget(s, c)
  }

  function ApplyRouter(s: State, step: Step): State
    requires Enabled(s, step) && step.IsRouterStep()
  {
    match step
    case RouterControl => ApplyRouterControl(s)
    case RouterTake => ApplyRouterTake(s)
    case RouterTargets(order) => ApplyRouterTargets(s, order)
    case RouterDeliver => ApplyRouterDeliver(s)
    case RouterDelivered => s.(router := Flushing)
    case RouterFlush =>
      s.(transport := s.transport + [ConnectionClosed(s.pendingClosed[0])], pendingClosed := s.pendingClosed[1..])
    case RouterFlushed => s.(router := RouterIdle)
    case RouterExit => s.(router := RouterExited)
  }

  function ApplyConnection(s: State, step: Step): State
    requires Enabled(s, step) && step.IsConnectionStep()
  {
    match step
    case Accept => ApplyAccept(s)
    case Announce(c) => ApplyAnnounce(s, c)
    case ReadRequest(c, id) => ApplyReadRequest(s, c, id)
    case ReadOther(c) => ApplyReadOther(s, c)
    case Disconnect(c) => s.(sockets := s.sockets[c := Closing])
    case AnnounceClose(c) => ApplyAnnounceClose(s, c)
    case DrainWriter(c) =>
      var w := s.writers[c];
      s.(writers := s.writers[c := w.(queue := w.queue[1..], taken := w.taken + [w.queue[0]])])
    case CloseWriter(c) => s.(writers := s.writers[c := s.writers[c].(open := false)])
  }

  function Apply(s: State, step: Step): State
    requires Enabled(s, step)
  {
    if step.IsConnectionStep() then ApplyConnection(s, step)
    else if step.IsRouterStep() then ApplyRouter(s, step)
    else if step.Emit? then ApplyEmit(s, step.send)
    else if step.HandlerSent? then ApplyHandlerSent(s)
    else ApplyProcessor(s, step)
  }

  // ------------------------------------------------------------------- runs

  /** `states` is a run of the server taking `steps`. */
  ghost predicate IsRun(states: seq<State>, steps: seq<Step>) {
    && |states| == |steps| + 1
    && Init(states[0])
    && forall i | 0 <= i < |steps| :: Enabled(states[i], steps[i]) && states[i + 1] == Apply(states[i], steps[i])
  }
}
