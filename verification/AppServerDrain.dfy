/** Closing stdin does not lose answers: over stdio, when the router handles
    the close of the connection, every request ever read from it has been
    answered or refused, unless the writer itself failed. */
module AppServerDrain {
  import opened Text
  import opened RequestRouting
  import opened AppServer
  import opened AppServerFrames
  import opened AppServerAnswers
  import opened AppServerAccounting
  import opened AppServerLifecycle
  import opened AppServerSessions

  const STDIO: ConnectionId := 0

  // -------------------------------------------------------------- invariant

  /** Only the stdio connection exists. */
  ghost predicate OnlyStdioQueued(
      transport: seq<TransportEvent>, control: seq<ControlEvent>, pendingClosed: seq<ConnectionId>,
      received: seq<Received>) {
    && (forall i | 0 <= i < |transport| :: transport[i].conn == STDIO)
    && (forall i | 0 <= i < |control| :: control[i].conn == STDIO)
    && (forall i | 0 <= i < |pendingClosed| :: pendingClosed[i] == STDIO)
    && (forall r | 0 <= r < |received| :: received[r].conn == STDIO)
  }

  ghost predicate OnlyStdio(s: State) {
    && s.sockets.Keys == {STDIO}
    && OnlyStdioQueued(s.transport, s.control, s.pendingClosed, s.received)
    && (!s.processor.Idle? && !s.processor.ProcessorExited? ==> s.processor.conn == STDIO)
    && s.connections.Keys <= {STDIO}
  }

  /** The connection is announced before anything else comes from it, and is
      known to the processor from then on. */
  ghost predicate AnnouncedFirst(
      stages: Stages, transport: seq<TransportEvent>, processor: Processor, known: set<ConnectionId>,
      control: seq<ControlEvent>) {
    && STDIO in stages
    && (stages[STDIO].Unannounced? ==> transport == [])
    && (stages[STDIO].Announced? ==> transport != [] && transport[0] == ConnectionOpened(STDIO))
    && (WasOpened(stages, STDIO) && !processor.RemovingRoutes? && !processor.ProcessorExited? ==> STDIO in known)
    && (processor.RemovingRoutes? ==> STDIO !in known)
    && (stages[STDIO].Controlled? ==> Opened(STDIO) in control)
  }

  /** The Closed event has been sent to the router. */
  predicate ClosedSent(p: Processor) {
    p.RemovingConnection? || p.RemovingRoutes? || p.ProcessorExited?
  }

  predicate RoutesAwaited(p: Processor) {
    p.SendingClosed? || ClosedSent(p)
  }

  predicate CloseTaken(p: Processor) {
    p.WaitingForRoutes? || RoutesAwaited(p)
  }

  predicate IsLoss(fate: Fate) {
    fate.Lost? || fate.Dropped? || fate.Unheard? || fate.Vanished?
  }

  /** The reader's close is the last event, and it is taken only after
      everything read before it. */
  ghost predicate CloseIsLast(
      processor: Processor, ended: bool, transport: seq<TransportEvent>, pendingClosed: seq<ConnectionId>) {
    && (CloseTaken(processor) ==> ended && transport == [])
    && (forall i | 0 <= i < |transport| && transport[i].ConnectionClosed? :: i == |transport| - 1 && ended)
    && pendingClosed == []
  }

  /** No request keeps a route once the routes have been waited for. */
  ghost predicate RoutesGone(processor: Processor, received: seq<Received>) {
    RoutesAwaited(processor) ==> forall r | 0 <= r < |received| :: !received[r].fate.Routed?
  }

  ghost predicate ClosedAfterWait(processor: Processor, control: seq<ControlEvent>, stages: Stages) {
    && (forall i | 0 <= i < |control| && control[i].Closed? :: ClosedSent(processor))
    && (HasStage(stages, STDIO, Unregistered) ==> ClosedSent(processor))
  }

  /** While the writer works, the router can reach the connection whenever it
      holds an answer, so no request is lost. */
  ghost predicate NothingLost(router: Router, outbound: set<ConnectionId>, received: seq<Received>) {
    && (forall r | 0 <= r < |received| :: !IsLoss(received[r].fate))
    && (router.Rewritten? && router.envelope.message.IsAnswer() ==> STDIO in outbound)
    && (router.Delivering? && router.message.IsAnswer() && router.targets != [] ==> STDIO in outbound)
  }

  ghost predicate WriterIntact(s: State)
    requires s.sockets.Keys == {STDIO}
  {
    && CloseIsLast(s.processor, s.sockets[STDIO].Ended?, s.transport, s.pendingClosed)
    && RoutesGone(s.processor, s.received)
    && ClosedAfterWait(s.processor, s.control, s.stages)
    && NothingLost(s.router, s.outbound, s.received)
  }

  ghost predicate DrainInv(s: State) {
    && s.mode.Stdio?
    && OnlyStdio(s)
    && AnnouncedFirst(s.stages, s.transport, s.processor, s.connections.Keys, s.control)
    && (STDIO in s.failed ==> STDIO in s.writers && !s.writers[STDIO].open)
    && (STDIO !in s.failed ==> WriterIntact(s))
  }

  /** The invariants the drain argument rests on. */
  ghost predicate Background(s: State) {
    AnswerInv(s) && AccountInv(s) && LifecycleInv(s)
  }

  lemma InitDrains(s: State)
    requires Init(s) && s.mode.Stdio?
    ensures DrainInv(s)
  {
  }

  // -------------------------------------------------- steps of the reader

  lemma AnnounceDrains(s: State, c: ConnectionId)
    requires DrainInv(s) && LifecycleInv(s) && Enabled(s, Announce(c))
    ensures DrainInv(ApplyAnnounce(s, c))
  {
  }

  lemma EnqueueDrains(s: State, e: TransportEvent, received: seq<Received>)
    requires DrainInv(s) && LifecycleInv(s) && s.sockets[STDIO].Reading? && !s.processor.ProcessorExited?
    requires e.IncomingMessage? && e.conn == STDIO
    requires received == s.received || exists id :: received == s.received + [Received(STDIO, id, Queued)]
    ensures DrainInv(s.(transport := s.transport + [e], received := received))
  {
  }

  lemma RefuseDrains(s: State, c: ConnectionId, id: RequestId)
    requires DrainInv(s) && c in s.writers && c == STDIO
    ensures DrainInv(RefuseRequest(s, c, id))
  {
  }

  lemma LoseDrains(s: State, c: ConnectionId, id: RequestId, fate: Fate, stop: bool)
    requires DrainInv(s) && c == STDIO && s.sockets[STDIO].Reading?
    requires fate.Refused? || (fate.Unheard? && s.processor.ProcessorExited?)
    ensures DrainInv(LoseRequest(s, c, id, fate, stop))
  {
  }

  lemma ReadRequestDrains(s: State, c: ConnectionId, id: RequestId)
    requires DrainInv(s) && LifecycleInv(s) && Enabled(s, ReadRequest(c, id))
    ensures DrainInv(ApplyReadRequest(s, c, id))
  {
    assert c == STDIO;
    if s.processor.ProcessorExited? {
      LoseDrains(s, c, id, Unheard, true);
    } else if HasRoom(s.transport) {
      EnqueueDrains(s, IncomingMessage(c, InRequest(id, |s.received|)), s.received + [Received(c, id, Queued)]);
    } else if WriterAccepts(s, c) {
      RefuseDrains(s, c, id);
    } else {
      LoseDrains(s, c, id, Refused(false), !s.writers[c].open);
    }
    hide DrainInv, LifecycleInv, LoseRequest, RefuseRequest, Enabled;
  }

  /** Changing the socket's state or a writer's queue. */
  lemma SocketDrains(s: State, c: ConnectionId, socket: Socket)
    requires DrainInv(s) && c == STDIO && !(s.sockets[STDIO].Ended? && !socket.Ended?)
    ensures DrainInv(s.(sockets := s.sockets[c := socket]))
  {
  }

  lemma WriterDrains(s: State, c: ConnectionId, w: Writer)
    requires DrainInv(s) && c in s.writers && (w.open ==> s.writers[c].open)
    ensures DrainInv(s.(writers := s.writers[c := w]))
  {
  }

  lemma AnnounceCloseDrains(s: State, c: ConnectionId)
    requires DrainInv(s) && LifecycleInv(s) && Enabled(s, AnnounceClose(c))
    ensures DrainInv(ApplyAnnounceClose(s, c))
  {
    assert !s.stages[STDIO].Unannounced?;
    hide LifecycleInv, Enabled;
  }

  lemma ConnectionStepDrains(s: State, step: Step)
    requires DrainInv(s) && LifecycleInv(s) && Enabled(s, step) && step.IsConnectionStep()
    ensures DrainInv(Apply(s, step))
  {
    hide LifecycleInv, ApplyRouter, ApplyProcessor, ApplyReadRequest, ApplyAnnounce, ApplyAnnounceClose;
    if step.Announce? {
      AnnounceDrains(s, step.conn);
    } else if step.ReadRequest? {
      ReadRequestDrains(s, step.conn, step.id);
    } else if step.ReadOther? {
      if s.processor.ProcessorExited? {
        SocketDrains(s, step.conn, Closing);
      } else {
        EnqueueDrains(s, IncomingMessage(step.conn, InOther), s.received);
      }
    } else if step.Disconnect? {
      SocketDrains(s, step.conn, Closing);
    } else if step.AnnounceClose? {
      AnnounceCloseDrains(s, step.conn);
    } else if step.DrainWriter? || step.CloseWriter? {
      WriterDrains(s, step.conn, Apply(s, step).writers[step.conn]);
    }
  }

  // ------------------------------------------------ steps of the processor

  lemma TakeOpenedDrains(s: State, t: State)
    requires DrainInv(s) && LifecycleInv(s) && Enabled(s, TakeOpened)
    requires t == s.(transport := s.transport[1..], processor := Opening(s.transport[0].conn),
                     stages := s.stages[s.transport[0].conn := BeingOpened])
    ensures DrainInv(t)
  {
  }

  lemma SendOpenedDrains(s: State)
    requires DrainInv(s) && LifecycleInv(s) && Enabled(s, SendOpened)
    ensures DrainInv(ApplySendOpened(s))
  {
    var t := ApplySendOpened(s);
    assert HasStage(s.stages, STDIO, BeingOpened);
    assert t.control[|s.control|] == Opened(STDIO);
    hide LifecycleInv, Enabled;
  }

  /** The first event is never a request of an unknown connection. */
  lemma RequesterIsKnown(s: State)
    requires DrainInv(s) && LifecycleInv(s) && Enabled(s, TakeRequest)
    ensures s.transport[0].conn in s.connections
  {
    assert s.transport[0].conn == STDIO;
    assert HasStage(s.stages, STDIO, BeingOpened) <==> s.processor == Opening(STDIO);
  }

  lemma AcceptRequestDrains(s: State)
    requires DrainInv(s) && AnswerInv(s) && Enabled(s, TakeRequest)
    requires !s.stages[STDIO].Announced? && !s.stages[STDIO].Unannounced?
    ensures DrainInv(AcceptRequest(s))
  {
  }

  lemma TakeRequestDrains(s: State)
    requires DrainInv(s) && AnswerInv(s) && LifecycleInv(s) && Enabled(s, TakeRequest)
    ensures DrainInv(ApplyTakeRequest(s))
  {
    RequesterIsKnown(s);
    assert WasOpened(s.stages, STDIO);
    hide LifecycleInv;
    AcceptRequestDrains(s);
  }

  lemma TakeOtherDrains(s: State)
    requires DrainInv(s) && Enabled(s, TakeOther)
    ensures DrainInv(s.(transport := s.transport[1..]))
  {
  }

  lemma TakeClosedDrains(s: State)
    requires DrainInv(s) && Enabled(s, TakeClosed)
    ensures DrainInv(ApplyTakeClosed(s))
  {
  }

  lemma RoutesDrainedDrains(s: State)
    requires DrainInv(s) && AccountInv(s) && AnswerInv(s) && Enabled(s, RoutesDrained)
    ensures DrainInv(s.(processor := SendingClosed(s.processor.conn)))
  {
  }

  lemma SendClosedDrains(s: State)
    requires DrainInv(s) && Enabled(s, SendClosed)
    ensures DrainInv(s.(control := s.control + [Closed(s.processor.conn)],
                        processor := RemovingConnection(s.processor.conn)))
  {
  }

  lemma RemoveConnectionDrains(s: State)
    requires DrainInv(s) && Enabled(s, RemoveConnection)
    ensures DrainInv(s.(connections := s.connections - {s.processor.conn},
                        processor := RemovingRoutes(s.processor.conn)))
  {
  }

  lemma RemoveRoutesDrains(s: State)
    requires DrainInv(s) && LifecycleInv(s) && Enabled(s, RemoveRoutes)
    ensures DrainInv(ApplyRemoveRoutes(s))
  {
    assert s.connections == map[];
    hide LifecycleInv;
    if STDIO !in s.failed {
      assert VanishRoutesOf(s.received, s.processor.conn) == s.received;
    }
  }

  /** Handler steps, and answers and notifications queued by any task. */
  lemma HandlerDrains(s: State, t: State)
    requires DrainInv(s) && t.mode == s.mode && t.sockets == s.sockets && t.writers == s.writers
    requires t.transport == s.transport && t.control == s.control && t.stages == s.stages && t.failed == s.failed
    requires t.received == s.received && t.pendingClosed == s.pendingClosed
    requires t.router == s.router && t.outbound == s.outbound && t.connections.Keys == s.connections.Keys
    requires t.processor == s.processor || (s.processor.Handling? && t.processor == Idle)
          || (s.processor.Handling? && t.processor.Handling? && t.processor.conn == s.processor.conn)
    ensures DrainInv(t)
  {
  }

  lemma CloseStepDrains(s: State, step: Step)
    requires DrainInv(s) && Background(s) && Enabled(s, step)
    requires step.TakeClosed? || step.RoutesDrained? || step.SendClosed? || step.RemoveConnection? || step.RemoveRoutes?
    ensures DrainInv(Apply(s, step))
  {
    hide ApplyConnection, ApplyRouter, ApplyEmit, ApplyHandlerSent;
    hide DrainInv, AnswerInv, AccountInv, LifecycleInv, ApplyTakeClosed, ApplyRemoveRoutes;
    if step.TakeClosed? {
      TakeClosedDrains(s);
    } else if step.RoutesDrained? {
      RoutesDrainedDrains(s);
    } else if step.SendClosed? {
      SendClosedDrains(s);
    } else if step.RemoveConnection? {
      RemoveConnectionDrains(s);
    } else {
      RemoveRoutesDrains(s);
    }
  }

  lemma EventStepDrains(s: State, step: Step)
    requires DrainInv(s) && Background(s) && Enabled(s, step)
    requires step.TakeOpened? || step.SendOpened? || step.TakeRequest? || step.TakeOther?
    ensures DrainInv(Apply(s, step))
  {
    hide ApplyConnection, ApplyRouter, ApplyEmit, ApplyHandlerSent;
    hide DrainInv, AnswerInv, AccountInv, LifecycleInv, ApplySendOpened, ApplyTakeRequest;
    if step.TakeOpened? {
      TakeOpenedDrains(s, ApplyProcessor(s, step));
    } else if step.SendOpened? {
      SendOpenedDrains(s);
    } else if step.TakeRequest? {
      TakeRequestDrains(s);
    } else {
      TakeOtherDrains(s);
    }
  }

  lemma ProcessorStepDrains(s: State, step: Step)
    requires DrainInv(s) && Background(s) && Enabled(s, step)
    requires !step.IsConnectionStep() && !step.IsRouterStep()
    ensures DrainInv(Apply(s, step))
  {
    assert !step.RouterGone?;
    hide DrainInv, Background, Apply, Enabled;
    if step.TakeOpened? || step.SendOpened? || step.TakeRequest? || step.TakeOther? {
      EventStepDrains(s, step);
    } else if step.TakeClosed? || step.RoutesDrained? || step.SendClosed? || step.RemoveConnection?
           || step.RemoveRoutes? {
      CloseStepDrains(s, step);
    } else {
      HandlerSteps(s, step);
    }
  }

  /** Steps within a request, and messages sent. */
  lemma HandlerSteps(s: State, step: Step)
    requires DrainInv(s) && Enabled(s, step)
    requires step.SetOptOut? || step.MarkInitialized? || step.PublishInitialized? || step.AddListener?
          || step.RemoveListener? || step.FinishRequest? || step.Emit? || step.HandlerSends? || step.HandlerSent?
          || step.HandlerSendFails?
    ensures DrainInv(Apply(s, step))
  {
    hide DrainInv, ApplyRouter, ApplyConnection, ApplyProcessor, EnvelopeOf, IsSendable, HasRoom;
    if step.Emit? || step.HandlerSent? {
      HandlerDrains(s, Apply(s, step));
    } else if step.SetOptOut? || step.MarkInitialized? {
      SessionDrains(s, step);
    } else {
      InRequestDrains(s, step);
    }
  }

  lemma SessionDrains(s: State, step: Step)
    requires DrainInv(s) && Enabled(s, step) && (step.SetOptOut? || step.MarkInitialized?)
    ensures DrainInv(Apply(s, step))
  {
    hide ApplyConnection, ApplyRouter, ApplyEmit, ApplyHandlerSent;
    hide DrainInv;
    var t := ApplyProcessor(s, step);
    UpdateKeepsKeys(s.connections, s.processor.conn, t.connections[s.processor.conn]);
    HandlerDrains(s, t);
  }

  lemma InRequestDrains(s: State, step: Step)
    requires DrainInv(s) && Enabled(s, step)
    requires step.PublishInitialized? || step.AddListener? || step.RemoveListener? || step.FinishRequest?
          || step.HandlerSends? || step.HandlerSendFails?
    ensures DrainInv(Apply(s, step))
  {
    hide ApplyConnection, ApplyRouter, ApplyEmit, ApplyHandlerSent;
    hide DrainInv;
    HandlerDrains(s, ApplyProcessor(s, step));
  }

  // --------------------------------------------------- steps of the router

  lemma RouterControlDrains(s: State)
    requires DrainInv(s) && LifecycleInv(s) && Enabled(s, RouterControl)
    ensures DrainInv(ApplyRouterControl(s))
  {
  }

  /** Whoever has a route is registered when the control channel is empty. */
  lemma RoutedIsRegistered(s: State, id: RequestId)
    requires DrainInv(s) && Background(s) && s.control == [] && STDIO !in s.failed && id in s.routes
    ensures STDIO in s.outbound
  {
  }

  lemma TakenDrains(s: State, t: State, origin: Option<nat>)
    requires DrainInv(s) && (STDIO !in s.failed ==> STDIO in s.outbound)
    requires t == s.(outgoing := t.outgoing, routes := t.routes, router := t.router,
                     received := SetFateOf(s.received, origin, InFlight))
    ensures DrainInv(t)
  {
  }

  lemma RouterTakeRoutedDrains(s: State)
    requires DrainInv(s) && Background(s) && Enabled(s, RouterTake)
    requires s.outgoing[0].message.IsAnswer() && s.outgoing[0].message.id in s.routes
    ensures DrainInv(ApplyRouterTake(s))
  {
    hide Background, DrainInv, Rewrite, SetFateOf;
    if STDIO !in s.failed {
      RoutedIsRegistered(s, s.outgoing[0].message.id);
    }
    TakenDrains(s, ApplyRouterTake(s), OriginOf(s, s.outgoing[0]));
  }

  lemma RouterTakeOtherDrains(s: State)
    requires DrainInv(s) && OutgoingAnswers(s.outgoing) && Enabled(s, RouterTake)
    requires !(s.outgoing[0].message.IsAnswer() && s.outgoing[0].message.id in s.routes)
    ensures DrainInv(ApplyRouterTake(s))
  {
  }

  lemma RouterTargetsDrains(s: State, order: seq<ConnectionId>)
    requires DrainInv(s) && AnswerInv(s) && Enabled(s, RouterTargets(order))
    ensures DrainInv(ApplyRouterTargets(s, order))
  {
    hide AnswerInv, Enabled, AnnouncedFirst, CloseIsLast, ClosedAfterWait;
    AnswerHasItsTarget(s, order);
  }

  lemma AnswerHasItsTarget(s: State, order: seq<ConnectionId>)
    requires DrainInv(s) && AnswerInv(s) && Enabled(s, RouterTargets(order))
    ensures s.router.Rewritten?
    ensures s.router.envelope.message.IsAnswer() && STDIO !in s.failed ==> order != []
    ensures !s.router.envelope.message.IsAnswer() ==> s.router.origin.None?
  {
    if s.router.envelope.message.IsAnswer() && STDIO !in s.failed {
      assert s.router.envelope.conn == STDIO;
      assert STDIO in Targets(s, s.router.envelope);
    }
  }

  lemma RouterDeliverDrains(s: State)
    requires DrainInv(s) && AnswerInv(s) && LifecycleInv(s) && Enabled(s, RouterDeliver)
    ensures DrainInv(ApplyRouterDeliver(s))
  {
    var c, origin := s.router.targets[0], s.router.origin;
    assert origin.Some? ==> s.router.targets == [STDIO];
    if c !in s.outbound {
      SkipTargetDrains(s);
    } else {
      assert HasStage(s.stages, c, Registered);
      if WriterAccepts(s, c) {
        DeliverToDrains(s);
      } else {
        DisconnectTargetDrains(s);
      }
    }
    hide DrainInv, AnswerInv, LifecycleInv, SkipTarget, DeliverTo, DisconnectTarget, Enabled;
  }

  lemma SkipTargetDrains(s: State)
    requires DrainInv(s) && s.router.Delivering? && s.router.targets != [] && s.router.targets[0] !in s.outbound
    requires s.router.origin.Some? ==> s.router.message.IsAnswer() && s.router.targets == [STDIO]
    ensures DrainInv(SkipTarget(s))
  {
  }

  lemma DeliverToDrains(s: State)
    requires DrainInv(s) && s.router.Delivering? && s.router.targets != [] && s.router.targets[0] in s.writers
    requires s.router.targets[0] == STDIO
    ensures DrainInv(DeliverTo(s, s.router.targets[0]))
  {
  }

  lemma DisconnectTargetDrains(s: State)
    requires DrainInv(s) && s.router.Delivering? && s.router.targets != []
    requires s.router.targets[0] == STDIO && STDIO in s.writers && !s.writers[STDIO].open
    requires HasStage(s.stages, STDIO, Registered)
    ensures DrainInv(DisconnectTarget(s, s.router.targets[0]))
  {
  }

  lemma FlushDrains(s: State)
    requires DrainInv(s) && LifecycleInv(s) && Enabled(s, RouterFlush)
    ensures DrainInv(ApplyRouter(s, RouterFlush))
  {
    assert STDIO in s.failed;
    assert s.pendingClosed[0] in s.routerCloses && HasStage(s.stages, s.pendingClosed[0], Unregistered);
    hide LifecycleInv, RoutesGone, ClosedAfterWait, Enabled;
  }

  lemma RouterQueueDrains(s: State, step: Step)
    requires DrainInv(s) && LifecycleInv(s) && Enabled(s, step)
    requires step.RouterDelivered? || step.RouterFlush? || step.RouterFlushed? || step.RouterExit?
    ensures DrainInv(ApplyRouter(s, step))
  {
    hide LifecycleInv, RoutesGone, ClosedAfterWait;
    if step.RouterFlush? {
      hide DrainInv;
      FlushDrains(s);
    }
  }

  lemma RouterStepDrains(s: State, step: Step)
    requires DrainInv(s) && Background(s) && Enabled(s, step) && step.IsRouterStep()
    ensures DrainInv(ApplyRouter(s, step))
  {
    assert AnswerInv(s) && OutgoingAnswers(s.outgoing);
    hide DrainInv, AnswerInv, AccountInv, LifecycleInv, OutgoingAnswers;
    hide ApplyRouterControl, ApplyRouterTake, ApplyRouterTargets, ApplyRouterDeliver;
    if step.RouterControl? {
      RouterControlDrains(s);
    } else if step.RouterTake? {
      if s.outgoing[0].message.IsAnswer() && s.outgoing[0].message.id in s.routes {
        RouterTakeRoutedDrains(s);
      } else {
        RouterTakeOtherDrains(s);
      }
    } else if step.RouterTargets? {
      RouterTargetsDrains(s, step.order);
    } else if step.RouterDeliver? {
      RouterDeliverDrains(s);
    } else {
      RouterQueueDrains(s, step);
    }
  }

  // ----------------------------------------------------------------- theorem

  lemma StepDrains(s: State, step: Step)
    requires DrainInv(s) && Background(s) && Enabled(s, step)
    ensures DrainInv(Apply(s, step))
  {
    if step.IsConnectionStep() {
      ConnectionStepDrains(s, step);
    } else if step.IsRouterStep() {
      RouterStepDrains(s, step);
    } else {
      ProcessorStepDrains(s, step);
    }
    hide DrainInv, Background, ApplyRouter, ApplyConnection, ApplyProcessor, Enabled;
  }

  lemma {:induction false} DrainAlongRun(states: seq<State>, steps: seq<Step>, i: nat)
    requires IsRun(states, steps) && i < |states| && states[0].mode.Stdio?
    ensures DrainInv(states[i]) && Background(states[i])
  {
    hide AnswerInv, AccountInv, LifecycleInv, DrainInv, Apply, Enabled;
    AccountsAlongRun(states, steps, i);
    LifecycleAlongRun(states, steps, i);
    if i == 0 {
      InitDrains(states[0]);
    } else {
      DrainAlongRun(states, steps, i - 1);
      StepOfRun(states, steps, i - 1);
      StepDrains(states[i - 1], steps[i - 1]);
    }
  }

  lemma NoneQueued(received: seq<Received>)
    requires QueuedAreInTransport([], received)
    ensures forall r | 0 <= r < |received| :: !received[r].fate.Queued?
  {
  }

  /** When the router comes to the Closed event of the stdio connection and
      the writer still works, the reader has ended and every request it ever
      read has been answered or was refused because the channel was full.
      Control events overtake queued envelopes, so this rests on the
      processor waiting for the routes first. */
  lemma StdioIsDrainedBeforeClose(states: seq<State>, steps: seq<Step>, i: nat)
    requires IsRun(states, steps) && i < |steps| && states[0].mode.Stdio?
    requires steps[i] == RouterControl && states[i].control[0] == Closed(STDIO)
    requires STDIO in states[i].writers && states[i].writers[STDIO].open
    ensures STDIO in states[i].sockets && states[i].sockets[STDIO].Ended?
    ensures forall r | 0 <= r < |states[i].received| ::
              states[i].received[r].fate.Answered? || states[i].received[r].fate.Refused?
  {
    DrainAlongRun(states, steps, i);
    var s := states[i];
    assert WriterIntact(s) && ClosedSent(s.processor);
    NoneQueued(s.received);
    forall r: nat | r < |s.received|
      ensures s.received[r].fate.Answered? || s.received[r].fate.Refused?
    {
      assert !IsLoss(s.received[r].fate);
    }
  }
}
