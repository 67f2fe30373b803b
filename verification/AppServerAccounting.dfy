/** Conservation of requests: in every run each request read from a connection
    is in exactly the one place its fate names, so none disappears silently. */
module AppServerAccounting {
  import opened Text
  import opened RequestRouting
  import opened AppServer
  import opened AppServerAnswers

  /** The event that carries request `r`. */
  function RequestEvent(received: seq<Received>, r: nat): TransportEvent
    requires r < |received|
  {
    IncomingMessage(received[r].conn, InRequest(received[r].id, r))
  }

  ghost predicate QueuedAreInTransport(transport: seq<TransportEvent>, received: seq<Received>) {
    forall r: nat | r < |received| && received[r].fate.Queued? :: RequestEvent(received, r) in transport
  }

  ghost predicate HasItsRoute(routes: RouteTable, received: seq<Received>, r: nat)
    requires r < |received| && received[r].fate.Routed?
  {
    var k := InternalId(received[r].conn, received[r].fate.ordinal);
    k in routes && routes[k].read == r
  }

  ghost predicate RoutedHaveRoutes(routes: RouteTable, received: seq<Received>) {
    forall r: nat | r < |received| && received[r].fate.Routed? :: HasItsRoute(routes, received, r)
  }

  predicate Holds(router: Router, r: nat) {
    match router
    case Rewritten(_, origin) => origin == Some(r)
    case Delivering(_, targets, origin) => origin == Some(r) && targets != []
    case _ => false
  }

  ghost predicate InFlightAreHeld(router: Router, received: seq<Received>) {
    forall r: nat | r < |received| && received[r].fate.InFlight? :: Holds(router, r)
  }

  ghost predicate AccountInv(s: State) {
    && QueuedAreInTransport(s.transport, s.received)
    && RoutedHaveRoutes(s.routes, s.received)
    && InFlightAreHeld(s.router, s.received)
  }

  // -------------------------------------------------------------- components

  lemma PushEvent(transport: seq<TransportEvent>, received: seq<Received>, e: TransportEvent)
    requires QueuedAreInTransport(transport, received)
    ensures QueuedAreInTransport(transport + [e], received)
  {
  }

  lemma PopEvent(transport: seq<TransportEvent>, received: seq<Received>)
    requires QueuedAreInTransport(transport, received) && transport != [] && !IsRequestEvent(transport[0])
    ensures QueuedAreInTransport(transport[1..], received)
  {
  }

  lemma ChangeFate(s: State, x: nat, fate: Fate)
    requires AccountInv(s) && x < |s.received|
    ensures var b := SetFate(s.received, x, fate);
            && (!fate.Queued? ==> QueuedAreInTransport(s.transport, b))
            && (!fate.Routed? ==> RoutedHaveRoutes(s.routes, b))
            && (!fate.InFlight? ==> InFlightAreHeld(s.router, b))
  {
  }

  lemma PopRequest(transport: seq<TransportEvent>, received: seq<Received>, fate: Fate)
    requires QueuedAreInTransport(transport, received)
    requires transport != [] && IsRequestEvent(transport[0]) && transport[0].message.read < |received|
    requires !fate.Queued?
    ensures QueuedAreInTransport(transport[1..], SetFate(received, transport[0].message.read, fate))
  {
  }

  /** A fresh internal id overwrites no route. */
  lemma AcceptKeepsRoutes(s: State)
    requires AccountInv(s) && AnswerInv(s) && Enabled(s, TakeRequest)
    ensures RoutedHaveRoutes(AcceptRequest(s).routes, AcceptRequest(s).received)
  {
    var t := AcceptRequest(s);
    var x, c := s.transport[0].message.read, s.transport[0].conn;
    assert EventBelongs(s.transport[0], s.received);
    forall r: nat | r < |t.received| && t.received[r].fate.Routed?
      ensures HasItsRoute(t.routes, t.received, r)
    {
      if r != x {
        assert HasItsRoute(s.routes, s.received, r);
        var k := InternalId(s.received[r].conn, s.received[r].fate.ordinal);
        assert RouteBelongs(k, s.routes[k], s.accepted, s.received);
        InternalIdInjective(s.received[r].conn, s.received[r].fate.ordinal, c, s.nextOrdinal);
      }
    }
  }

  lemma TakeRouteKeepsRoutes(s: State, id: RequestId)
    requires RoutedHaveRoutes(s.routes, s.received) && RoutesBelong(s.routes, s.accepted, s.received)
    requires id in s.routes && s.routes[id].read < |s.received|
    ensures RoutedHaveRoutes(s.routes - {id}, SetFate(s.received, s.routes[id].read, InFlight))
  {
  }

  lemma VanishKeepsRoutes(s: State, c: ConnectionId)
    requires RoutedHaveRoutes(s.routes, s.received) && RoutesBelong(s.routes, s.accepted, s.received)
    ensures RoutedHaveRoutes(WithoutRoutesOf(s.routes, c), VanishRoutesOf(s.received, c))
  {
  }

  lemma VanishKeepsOthers(s: State, c: ConnectionId)
    requires AccountInv(s)
    ensures QueuedAreInTransport(s.transport, VanishRoutesOf(s.received, c))
    ensures InFlightAreHeld(s.router, VanishRoutesOf(s.received, c))
  {
  }

  // ------------------------------------------------------------ preservation

  lemma SameAccounts(s: State, t: State)
    requires AccountInv(s) && QueuedAreInTransport(t.transport, s.received)
    requires t.received == s.received && t.routes == s.routes
    requires t.router == s.router || forall r: nat :: !Holds(s.router, r)
    ensures AccountInv(t)
  {
  }

  lemma EnqueueAccounts(s: State, c: ConnectionId, id: RequestId)
    requires AccountInv(s)
    ensures AccountInv(EnqueueRequest(s, c, id))
  {
  }

  lemma RefuseAccounts(s: State, c: ConnectionId, id: RequestId)
    requires AccountInv(s) && c in s.writers
    ensures AccountInv(RefuseRequest(s, c, id))
  {
  }

  lemma LoseAccounts(s: State, c: ConnectionId, id: RequestId, fate: Fate, stop: bool)
    requires AccountInv(s) && (fate.Unheard? || fate.Refused?)
    ensures AccountInv(LoseRequest(s, c, id, fate, stop))
  {
  }

  lemma ReadRequestAccounts(s: State, c: ConnectionId, id: RequestId)
    requires AccountInv(s) && Enabled(s, ReadRequest(c, id))
    ensures AccountInv(ApplyReadRequest(s, c, id))
  {
    EnqueueAccounts(s, c, id);
    RefuseAccounts(s, c, id);
    LoseAccounts(s, c, id, Unheard, true);
    LoseAccounts(s, c, id, Refused(false), !s.writers[c].open);
    hide AccountInv, EnqueueRequest, RefuseRequest, LoseRequest, Enabled;
  }

  lemma ConnectionStepAccounts(s: State, step: Step)
    requires AccountInv(s) && Enabled(s, step) && step.IsConnectionStep()
    ensures AccountInv(Apply(s, step))
  {
    hide ApplyReadRequest, ApplyRouter, ApplyProcessor;
    if step.ReadRequest? {
      ReadRequestAccounts(s, step.conn, step.id);
    } else {
      var t := Apply(s, step);
      if t.transport != s.transport {
        PushEvent(s.transport, s.received, t.transport[|s.transport|]);
      }
      hide QueuedAreInTransport, RoutedHaveRoutes, InFlightAreHeld;
      SameAccounts(s, t);
    }
  }

  lemma TakeRequestAccounts(s: State)
    requires AccountInv(s) && AnswerInv(s) && Enabled(s, TakeRequest)
    ensures AccountInv(ApplyTakeRequest(s))
  {
    var r := s.transport[0].message.read;
    ChangeFate(s, r, Dropped);
    ChangeFate(s, r, Routed(s.nextOrdinal));
    PopRequest(s.transport, s.received, Dropped);
    PopRequest(s.transport, s.received, Routed(s.nextOrdinal));
    AcceptKeepsRoutes(s);
    hide QueuedAreInTransport, RoutedHaveRoutes, InFlightAreHeld, AnswerInv, Enabled;
  }

  lemma ProcessorStepAccounts(s: State, step: Step)
    requires AccountInv(s) && AnswerInv(s) && Enabled(s, step)
    requires !step.IsConnectionStep() && !step.IsRouterStep()
    ensures AccountInv(Apply(s, step))
  {
    hide AccountInv, AnswerInv, ApplyConnection, ApplyRouter, ApplyProcessor, ApplyEmit, ApplyHandlerSent, Enabled;
    if step.Emit? || step.HandlerSent? {
      SendAccounts(s, step);
    } else if step.TakeRequest? || step.RemoveRoutes? {
      RequestAccounts(s, step);
    } else if step.TakeOpened? || step.TakeOther? || step.TakeClosed? {
      TakeEventAccounts(s, step);
    } else {
      QuietAccounts(s, step);
    }
  }

  lemma SendAccounts(s: State, step: Step)
    requires AccountInv(s) && Enabled(s, step) && (step.Emit? || step.HandlerSent?)
    ensures AccountInv(Apply(s, step))
  {
    hide QueuedAreInTransport, RoutedHaveRoutes, InFlightAreHeld;
    hide ApplyConnection, ApplyRouter, ApplyProcessor, EnvelopeOf;
    SameAccounts(s, Apply(s, step));
  }

  lemma RequestAccounts(s: State, step: Step)
    requires AccountInv(s) && AnswerInv(s) && Enabled(s, step) && (step.TakeRequest? || step.RemoveRoutes?)
    ensures AccountInv(ApplyProcessor(s, step))
  {
    hide ApplyTakeRequest;
    if step.TakeRequest? {
      TakeRequestAccounts(s);
    } else {
      VanishKeepsOthers(s, s.processor.conn);
      VanishKeepsRoutes(s, s.processor.conn);
    }
    hide QueuedAreInTransport, RoutedHaveRoutes, InFlightAreHeld, AnswerInv, Enabled;
  }

  lemma TakeEventAccounts(s: State, step: Step)
    requires AccountInv(s) && Enabled(s, step) && (step.TakeOpened? || step.TakeOther? || step.TakeClosed?)
    ensures AccountInv(ApplyProcessor(s, step))
  {
    PopEvent(s.transport, s.received);
    hide QueuedAreInTransport, RoutedHaveRoutes, InFlightAreHeld, Enabled;
    SameAccounts(s, ApplyProcessor(s, step));
  }

  lemma QuietAccounts(s: State, step: Step)
    requires AccountInv(s) && Enabled(s, step)
    requires !step.IsConnectionStep() && !step.IsRouterStep() && !step.Emit? && !step.HandlerSent?
    requires !step.TakeRequest? && !step.RemoveRoutes? && !step.TakeOpened? && !step.TakeOther? && !step.TakeClosed?
    ensures AccountInv(ApplyProcessor(s, step))
  {
    hide QueuedAreInTransport, RoutedHaveRoutes, InFlightAreHeld, Enabled;
    hide ApplyTakeRequest, ApplyRemoveRoutes, ApplyTakeClosed;
    SameAccounts(s, ApplyProcessor(s, step));
  }

  /** Receiving an answer whose route is there. */
  lemma TakeRouted(s: State)
    requires Enabled(s, RouterTake) && s.outgoing[0].Broadcast?
    requires s.outgoing[0].message.IsAnswer() && s.outgoing[0].message.id in s.routes
    requires s.routes[s.outgoing[0].message.id].read < |s.received|
    ensures var t, id := ApplyRouterTake(s), s.outgoing[0].message.id;
            && t.transport == s.transport && t.routes == s.routes - {id}
            && t.received == SetFate(s.received, s.routes[id].read, InFlight)
            && t.router.Rewritten? && t.router.origin == Some(s.routes[id].read)
  {
  }

  lemma RouterTakeRoutedAccounts(s: State)
    requires AccountInv(s) && AnswerInv(s) && Enabled(s, RouterTake)
    requires s.outgoing[0].message.IsAnswer() && s.outgoing[0].message.id in s.routes
    ensures AccountInv(ApplyRouterTake(s))
  {
    var m := s.outgoing[0].message;
    assert s.outgoing[0].Broadcast?;
    assert RouteBelongs(m.id, s.routes[m.id], s.accepted, s.received);
    TakeRouted(s);
    TakeRouteKeepsRoutes(s, m.id);
    hide ApplyRouterTake, RoutedHaveRoutes, AnswerInv, RouteBelongs;
    ChangeFate(s, s.routes[m.id].read, InFlight);
    hide QueuedAreInTransport, Enabled;
  }

  lemma RouterTakeOtherAccounts(s: State)
    requires AccountInv(s) && Enabled(s, RouterTake)
    requires !(s.outgoing[0].message.IsAnswer() && s.outgoing[0].message.id in s.routes)
    ensures AccountInv(ApplyRouterTake(s))
  {
  }

  lemma RouterTargetsAccounts(s: State, order: seq<ConnectionId>)
    requires AccountInv(s) && AnswerInv(s) && Enabled(s, RouterTargets(order))
    ensures AccountInv(ApplyRouterTargets(s, order))
  {
  }

  lemma SkipTargetAccounts(s: State)
    requires AccountInv(s) && RouterHolds(s.router, s.received) && s.router.Delivering? && s.router.targets != []
    ensures AccountInv(SkipTarget(s))
  {
  }

  lemma DisconnectTargetAccounts(s: State)
    requires AccountInv(s) && RouterHolds(s.router, s.received) && s.router.Delivering? && s.router.targets != []
    ensures AccountInv(DisconnectTarget(s, s.router.targets[0]))
  {
  }

  lemma DeliverToAccounts(s: State)
    requires AccountInv(s) && RouterHolds(s.router, s.received) && s.router.Delivering? && s.router.targets != []
    requires s.router.targets[0] in s.writers
    ensures AccountInv(DeliverTo(s, s.router.targets[0]))
  {
  }

  lemma RouterDeliverAccounts(s: State)
    requires AccountInv(s) && AnswerInv(s) && Enabled(s, RouterDeliver)
    ensures AccountInv(ApplyRouterDeliver(s))
  {
    SkipTargetAccounts(s);
    DisconnectTargetAccounts(s);
    if s.router.targets[0] in s.writers {
      DeliverToAccounts(s);
    }
    hide AccountInv, AnswerInv, SkipTarget, DisconnectTarget, DeliverTo, Enabled;
  }

  lemma RouterStepAccounts(s: State, step: Step)
    requires AccountInv(s) && AnswerInv(s) && Enabled(s, step) && step.IsRouterStep()
    ensures AccountInv(ApplyRouter(s, step))
  {
    hide ApplyRouterTake, ApplyRouterTargets, ApplyRouterDeliver, AccountInv, AnswerInv;
    if step.RouterTake? {
      if s.outgoing[0].message.IsAnswer() && s.outgoing[0].message.id in s.routes {
        RouterTakeRoutedAccounts(s);
      } else {
        RouterTakeOtherAccounts(s);
      }
    } else if step.RouterTargets? {
      RouterTargetsAccounts(s, step.order);
    } else if step.RouterDeliver? {
      RouterDeliverAccounts(s);
    } else {
      RouterQueueAccounts(s, step);
    }
  }

  lemma RouterQueueAccounts(s: State, step: Step)
    requires AccountInv(s) && Enabled(s, step) && step.IsRouterStep()
    requires !step.RouterTake? && !step.RouterTargets? && !step.RouterDeliver?
    ensures AccountInv(ApplyRouter(s, step))
  {
    if step.RouterFlush? {
      PushEvent(s.transport, s.received, ConnectionClosed(s.pendingClosed[0]));
    }
    hide QueuedAreInTransport, RoutedHaveRoutes, InFlightAreHeld;
    SameAccounts(s, ApplyRouter(s, step));
  }

  lemma StepAccounts(s: State, step: Step)
    requires AccountInv(s) && AnswerInv(s) && Enabled(s, step)
    ensures AccountInv(Apply(s, step))
  {
    hide AccountInv, AnswerInv, ApplyRouter, ApplyProcessor, ApplyConnection, Enabled;
    if step.IsConnectionStep() {
      ConnectionStepAccounts(s, step);
    } else if step.IsRouterStep() {
      RouterStepAccounts(s, step);
    } else {
      ProcessorStepAccounts(s, step);
    }
  }

  lemma {:induction false} AccountsAlongRun(states: seq<State>, steps: seq<Step>, i: nat)
    requires IsRun(states, steps) && i < |states|
    ensures AccountInv(states[i]) && AnswerInv(states[i])
  {
    AlongRun(states, steps, i);
    if i > 0 {
      AccountsAlongRun(states, steps, i - 1);
      StepAccounts(states[i - 1], steps[i - 1]);
    }
  }
}
