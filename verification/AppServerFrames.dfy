/** What the steps of each task leave alone. */
module AppServerFrames {
  import opened RequestRouting
  import opened AppServer

  lemma StepOfRun(states: seq<State>, steps: seq<Step>, i: nat)
    requires IsRun(states, steps) && i < |steps|
    ensures |states| == |steps| + 1 && Enabled(states[i], steps[i]) && states[i + 1] == Apply(states[i], steps[i])
  {
    hide Enabled, Apply, Init;
  }

  // --------------------------------------------------------------- processor

  /** The processor changes nothing of the connection tasks, the writers and the
      router, and sends no envelopes in steps of its own. */
  ghost predicate SameOutsideProcessor(s: State, t: State) {
    && t.mode == s.mode && t.nextConnectionId == s.nextConnectionId && t.sockets == s.sockets && t.writers == s.writers
    && t.outgoing == s.outgoing && t.router == s.router && t.outbound == s.outbound
    && t.pendingClosed == s.pendingClosed && t.answers == s.answers && t.failed == s.failed
    && t.routerCloses == s.routerCloses
  }

  lemma TakeRequestStaysInside(s: State)
    requires Enabled(s, TakeRequest)
    ensures SameOutsideProcessor(s, ApplyTakeRequest(s))
  {
    assert SameOutsideProcessor(s, AcceptRequest(s)) && SameOutsideProcessor(s, DropRequest(s));
    hide SameOutsideProcessor, AcceptRequest, DropRequest, Enabled;
  }

  lemma CloseStaysInside(s: State)
    ensures Enabled(s, TakeClosed) ==> SameOutsideProcessor(s, ApplyTakeClosed(s))
    ensures Enabled(s, RemoveRoutes) ==> SameOutsideProcessor(s, ApplyRemoveRoutes(s))
    ensures Enabled(s, SendOpened) ==> SameOutsideProcessor(s, ApplySendOpened(s))
  {
    hide Enabled;
  }

  lemma ProcessorStaysInside(s: State, step: Step)
    requires Enabled(s, step)
    requires !step.IsConnectionStep() && !step.IsRouterStep() && !step.Emit? && !step.HandlerSent?
    ensures SameOutsideProcessor(s, ApplyProcessor(s, step))
  {
    hide ApplyTakeRequest, ApplyTakeClosed, ApplyRemoveRoutes, ApplySendOpened, Enabled;
    if step.TakeRequest? {
      TakeRequestStaysInside(s);
    }
    CloseStaysInside(s);
  }

  // ------------------------------------------------------------------ router

  /** The router changes nothing of the connection tasks and the processor. */
  ghost predicate SameOutsideRouter(s: State, t: State) {
    && t.mode == s.mode && t.nextConnectionId == s.nextConnectionId && t.sockets == s.sockets
    && t.processor == s.processor && t.connections == s.connections && t.listeners == s.listeners
    && t.nextOrdinal == s.nextOrdinal && t.initializedFlags == s.initializedFlags && t.optOutFlags == s.optOutFlags
    && t.accepted == s.accepted && |t.received| == |s.received|
  }

  ghost predicate OnlyDelivers(s: State, t: State) {
    SameOutsideRouter(s, t) && t.router.Delivering? && t.routes == s.routes
  }

  lemma DeliverStaysInside(s: State)
    requires Enabled(s, RouterDeliver)
    ensures OnlyDelivers(s, ApplyRouterDeliver(s))
  {
    var c := s.router.targets[0];
    assert OnlyDelivers(s, SkipTarget(s)) && OnlyDelivers(s, DisconnectTarget(s, c));
    assert c in s.writers ==> OnlyDelivers(s, DeliverTo(s, c));
    hide OnlyDelivers, SkipTarget, DisconnectTarget, DeliverTo, Enabled;
  }

  lemma RouterStaysInside(s: State, step: Step)
    requires Enabled(s, step) && step.IsRouterStep()
    ensures SameOutsideRouter(s, ApplyRouter(s, step))
    ensures ApplyRouter(s, step).router.RouterExited? <==> step.RouterExit?
    ensures !step.RouterTake? ==> ApplyRouter(s, step).routes == s.routes
  {
    assert step.RouterFlush? ==> s.router.Flushing?;
    hide ApplyRouterDeliver, ApplyRouterControl, ApplyRouterTake, ApplyRouterTargets, Enabled;
    if step.RouterDeliver? {
      DeliverStaysInside(s);
    } else if step.RouterControl? {
      ControlStaysInside(s);
    } else if step.RouterTake? {
      TakeStaysInside(s);
    } else if step.RouterTargets? {
      TargetsStayInside(s, step.order);
    }
  }

  ghost predicate OnlyRouterMoves(s: State, t: State) {
    SameOutsideRouter(s, t) && !t.router.RouterExited? && t.routes == s.routes
  }

  lemma ControlStaysInside(s: State)
    requires Enabled(s, RouterControl)
    ensures OnlyRouterMoves(s, ApplyRouterControl(s))
  {
  }

  lemma TakeStaysInside(s: State)
    requires Enabled(s, RouterTake)
    ensures SameOutsideRouter(s, ApplyRouterTake(s)) && !ApplyRouterTake(s).router.RouterExited?
  {
    hide Rewrite, OriginOf, SetFateOf, Enabled;
  }

  lemma TargetsStayInside(s: State, order: seq<ConnectionId>)
    requires Enabled(s, RouterTargets(order))
    ensures OnlyRouterMoves(s, ApplyRouterTargets(s, order))
  {
    hide SetFateOf, Enumerates, Targets, Enabled;
  }

  // -------------------------------------------------------- connection tasks

  /** The connection tasks change nothing of the processor and the router. */
  ghost predicate SameOutsideConnections(s: State, t: State) {
    && t.mode == s.mode && t.outgoing == s.outgoing && t.control == s.control
    && t.processor == s.processor && t.connections == s.connections && t.listeners == s.listeners
    && t.nextOrdinal == s.nextOrdinal && t.routes == s.routes && t.initializedFlags == s.initializedFlags
    && t.optOutFlags == s.optOutFlags && t.router == s.router && t.outbound == s.outbound
    && t.pendingClosed == s.pendingClosed && t.accepted == s.accepted && t.failed == s.failed
    && t.routerCloses == s.routerCloses && s.received <= t.received
  }

  lemma ReadStaysInside(s: State, c: ConnectionId, id: RequestId)
    requires Enabled(s, ReadRequest(c, id))
    ensures SameOutsideConnections(s, ApplyReadRequest(s, c, id))
  {
    assert SameOutsideConnections(s, EnqueueRequest(s, c, id));
    assert SameOutsideConnections(s, RefuseRequest(s, c, id));
    assert forall fate, stop :: SameOutsideConnections(s, LoseRequest(s, c, id, fate, stop));
    hide SameOutsideConnections, EnqueueRequest, RefuseRequest, LoseRequest, Enabled;
  }

  lemma ConnectionStaysInside(s: State, step: Step)
    requires Enabled(s, step) && step.IsConnectionStep()
    ensures SameOutsideConnections(s, ApplyConnection(s, step))
  {
    hide ApplyReadRequest, PushWriter, Enabled;
    if step.ReadRequest? {
      ReadStaysInside(s, step.conn, step.id);
    }
  }
}
