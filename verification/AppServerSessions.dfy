/** What the processor keeps about its connections, at every event boundary. */
module AppServerSessions {
  import opened Text
  import opened RequestRouting
  import opened AppServer
  import opened AppServerFrames
  import opened AppServerLifecycle

  /** The connection is known, or its removal has reached the tables. */
  predicate KnownOrLeaving(s: State, c: ConnectionId) {
    c in s.connections || s.processor == RemovingRoutes(c)
  }

  function PublishedOptOut(s: State, c: ConnectionId): set<string> {
    if c in s.optOutFlags then s.optOutFlags[c] else {}
  }

  /** The processor is about to publish the initialization of `c`. */
  predicate PublishesFor(processor: Processor, c: ConnectionId) {
    processor.Handling? && processor.publishing && processor.conn == c
  }

  /** The processor's view of a session and the flags the router reads agree,
      except between the two writes that publish an initialization. */
  ghost predicate FlagsAgree(s: State, c: ConnectionId)
    requires c in s.connections
  {
    && (s.connections[c].initialized <==> c in s.initializedFlags || PublishesFor(s.processor, c))
    && s.connections[c].optedOut == PublishedOptOut(s, c)
  }

  ghost predicate SessionInv(s: State) {
    && (forall k | k in s.routes :: KnownOrLeaving(s, s.routes[k].conn))
    && (forall u | u in s.listeners :: KnownOrLeaving(s, s.listeners[u]))
    && (s.processor.Handling? ==> s.processor.conn in s.connections)
    && (forall c | c in s.connections :: WasOpened(s.stages, c) && FlagsAgree(s, c))
    && (s.processor.Handling? && s.processor.publishing ==> s.processor.conn !in s.initializedFlags)
    && (forall c | c in s.initializedFlags :: WasOpened(s.stages, c))
    && (forall c | c in s.optOutFlags :: WasOpened(s.stages, c))
  }

  /** Steps of the connection tasks and the router, which leave the
      processor's state alone and only remove routes. */
  lemma OtherTasksKeepSessions(s: State, t: State)
    requires SessionInv(s)
    requires t.processor == s.processor && t.connections == s.connections && t.listeners == s.listeners
    requires t.initializedFlags == s.initializedFlags && t.optOutFlags == s.optOutFlags
    requires forall k | k in t.routes :: k in s.routes && t.routes[k] == s.routes[k]
    requires forall c | WasOpened(s.stages, c) :: WasOpened(t.stages, c)
    ensures SessionInv(t)
  {
  }

  lemma StageOnlyAdvances(s: State, c: ConnectionId, stage: Stage)
    requires stage.Unregistered? || stage.Registered? || !WasOpened(s.stages, c)
    ensures forall d | WasOpened(s.stages, d) :: WasOpened(s.stages[c := stage], d)
  {
  }

  lemma ReadRequestKeepsSessions(s: State, c: ConnectionId, id: RequestId)
    requires SessionInv(s) && Enabled(s, ReadRequest(c, id))
    ensures SessionInv(ApplyReadRequest(s, c, id))
  {
    OtherTasksKeepSessions(s, EnqueueRequest(s, c, id));
    OtherTasksKeepSessions(s, LoseRequest(s, c, id, Unheard, true));
    OtherTasksKeepSessions(s, LoseRequest(s, c, id, Refused(false), !s.writers[c].open));
    OtherTasksKeepSessions(s, RefuseRequest(s, c, id));
    hide SessionInv, EnqueueRequest, LoseRequest, RefuseRequest, Enabled;
  }

  lemma ConnectionStepKeepsSessions(s: State, step: Step)
    requires SessionInv(s) && RegistrationInv(s) && Enabled(s, step) && step.IsConnectionStep()
    ensures SessionInv(Apply(s, step))
  {
    hide ApplyRouter, ApplyProcessor, ApplyConnection, ApplyEmit, SessionInv, RegistrationInv;
    if step.ReadRequest? {
      ReadKeepsSessions(s, step.conn, step.id);
    } else if step.Accept? || step.Announce? {
      NewConnectionKeepsSessions(s, step);
    } else {
      QuietConnectionKeepsSessions(s, step);
    }
  }

  lemma ReadKeepsSessions(s: State, c: ConnectionId, id: RequestId)
    requires SessionInv(s) && RegistrationInv(s) && Enabled(s, ReadRequest(c, id))
    ensures SessionInv(ApplyConnection(s, ReadRequest(c, id)))
  {
    hide ApplyReadRequest, SessionInv, RegistrationInv;
    ReadRequestKeepsSessions(s, c, id);
  }

  lemma NewConnectionKeepsSessions(s: State, step: Step)
    requires SessionInv(s) && RegistrationInv(s) && Enabled(s, step) && (step.Accept? || step.Announce?)
    ensures SessionInv(ApplyConnection(s, step))
  {
    hide SessionInv;
    if step.Accept? {
      StageOnlyAdvances(s, s.nextConnectionId, Unannounced);
    } else {
      StageOnlyAdvances(s, step.conn, Announced);
    }
    hide RegistrationInv;
    OtherTasksKeepSessions(s, ApplyConnection(s, step));
  }

  lemma QuietConnectionKeepsSessions(s: State, step: Step)
    requires SessionInv(s) && Enabled(s, step) && step.IsConnectionStep()
    requires !step.ReadRequest? && !step.Accept? && !step.Announce?
    ensures SessionInv(ApplyConnection(s, step))
  {
    hide SessionInv;
    OtherTasksKeepSessions(s, ApplyConnection(s, step));
  }

  lemma RewriteOnlyRemoves(s: State, envelope: Envelope)
    ensures forall k | k in Rewrite(envelope, s.routes).1 ::
              k in s.routes && Rewrite(envelope, s.routes).1[k] == s.routes[k]
  {
  }

  lemma RouterDeliverKeepsSessions(s: State)
    requires SessionInv(s) && Enabled(s, RouterDeliver)
    ensures SessionInv(ApplyRouterDeliver(s))
  {
    var c := s.router.targets[0];
    StageOnlyAdvances(s, c, Unregistered);
    OtherTasksKeepSessions(s, SkipTarget(s));
    OtherTasksKeepSessions(s, DisconnectTarget(s, c));
    if c in s.writers {
      OtherTasksKeepSessions(s, DeliverTo(s, c));
    }
    hide SessionInv, SkipTarget, DisconnectTarget, DeliverTo, Enabled;
  }

  lemma RouterControlKeepsSessions(s: State)
    requires SessionInv(s) && Enabled(s, RouterControl)
    ensures SessionInv(ApplyRouterControl(s))
  {
  }

  lemma RouterStepKeepsSessions(s: State, step: Step)
    requires SessionInv(s) && Enabled(s, step) && step.IsRouterStep()
    ensures SessionInv(ApplyRouter(s, step))
  {
    hide SessionInv, Rewrite, ApplyRouterDeliver, ApplyRouterControl;
    if step.RouterControl? {
      RouterControlKeepsSessions(s);
    } else if step.RouterDeliver? {
      RouterDeliverKeepsSessions(s);
    } else {
      if step.RouterTake? {
        RewriteOnlyRemoves(s, s.outgoing[0]);
      }
      OtherTasksKeepSessions(s, ApplyRouter(s, step));
    }
  }

  lemma TakeOpenedKeepsSessions(s: State, t: State)
    requires SessionInv(s) && RegistrationInv(s) && Enabled(s, TakeOpened)
    requires t == s.(transport := s.transport[1..], processor := Opening(s.transport[0].conn),
                     stages := s.stages[s.transport[0].conn := BeingOpened])
    ensures SessionInv(t)
  {
    assert HasStage(s.stages, s.transport[0].conn, Announced);
    StageOnlyAdvances(s, s.transport[0].conn, BeingOpened);
    forall c | c in t.connections
      ensures WasOpened(t.stages, c) && FlagsAgree(t, c)
    {
      assert FlagsAgree(s, c);
    }
    forall k | k in t.routes
      ensures KnownOrLeaving(t, t.routes[k].conn)
    {
      assert KnownOrLeaving(s, s.routes[k].conn);
    }
    forall u | u in t.listeners
      ensures KnownOrLeaving(t, t.listeners[u])
    {
      assert KnownOrLeaving(s, s.listeners[u]);
    }
  }

  lemma SendOpenedKeepsSessions(s: State)
    requires SessionInv(s) && RegistrationInv(s) && Enabled(s, SendOpened)
    ensures SessionInv(ApplySendOpened(s))
  {
  }

  /** Processor steps that change neither stages nor flags: what must be said
      about the rest. */
  lemma ProcessorKeepsSessions(s: State, t: State)
    requires SessionInv(s) && t.stages == s.stages
    requires t.initializedFlags == s.initializedFlags && t.optOutFlags == s.optOutFlags
    requires t.connections == s.connections && !(s.processor.Handling? && s.processor.publishing)
    requires !(t.processor.Handling? && t.processor.publishing)
    requires t.processor.Handling? ==> t.processor.conn in s.connections
    requires forall k | k in t.routes :: KnownOrLeaving(t, t.routes[k].conn)
    requires forall u | u in t.listeners :: KnownOrLeaving(t, t.listeners[u])
    ensures SessionInv(t)
  {
  }

  lemma HandlerKeepsSessions(s: State, step: Step)
    requires SessionInv(s) && Enabled(s, step)
    requires step.SetOptOut? || step.MarkInitialized? || step.PublishInitialized?
    ensures SessionInv(ApplyProcessor(s, step))
  {
    hide SessionInv, Enabled, ApplyProcessor;
    if step.SetOptOut? {
      OptOutKeepsSessions(s, step.methods);
    } else if step.MarkInitialized? {
      MarkKeepsSessions(s);
    } else {
      PublishKeepsSessions(s);
    }
  }

  /** The tables stay; sessions and flags agree as before, or the processor owes
      an update. */
  lemma SameTablesKeepSessions(s: State, t: State)
    requires SessionInv(s) && t.routes == s.routes && t.listeners == s.listeners && t.stages == s.stages
    requires t.connections.Keys == s.connections.Keys && s.processor.Handling? && t.processor.Handling?
    requires t.processor.conn == s.processor.conn
    requires forall c | c in t.connections && FlagsAgree(s, c) :: FlagsAgree(t, c)
    requires t.processor.publishing ==> t.processor.conn !in t.initializedFlags
    requires t.initializedFlags <= s.initializedFlags + {s.processor.conn}
    requires t.optOutFlags.Keys <= s.optOutFlags.Keys + {s.processor.conn}
    ensures SessionInv(t)
  {
    assert forall c | KnownOrLeaving(s, c) :: KnownOrLeaving(t, c);
    hide FlagsAgree, WasOpened;
  }

  lemma OptOutKeepsSessions(s: State, methods: set<string>)
    requires SessionInv(s) && Enabled(s, SetOptOut(methods))
    ensures SessionInv(ApplyProcessor(s, SetOptOut(methods)))
  {
    var t := ApplyProcessor(s, SetOptOut(methods));
    UpdateKeepsKeys(s.connections, s.processor.conn, t.connections[s.processor.conn]);
    assert FlagsAgree(s, s.processor.conn);
    SameTablesKeepSessions(s, t);
    hide SessionInv;
  }

  lemma MarkKeepsSessions(s: State)
    requires SessionInv(s) && Enabled(s, MarkInitialized)
    ensures SessionInv(ApplyProcessor(s, MarkInitialized))
  {
    var t := ApplyProcessor(s, MarkInitialized);
    UpdateKeepsKeys(s.connections, s.processor.conn, t.connections[s.processor.conn]);
    assert FlagsAgree(s, s.processor.conn);
    SameTablesKeepSessions(s, t);
    hide SessionInv;
  }

  lemma PublishKeepsSessions(s: State)
    requires SessionInv(s) && Enabled(s, PublishInitialized)
    ensures SessionInv(ApplyProcessor(s, PublishInitialized))
  {
    var t := ApplyProcessor(s, PublishInitialized);
    assert FlagsAgree(s, s.processor.conn);
    SameTablesKeepSessions(s, t);
    hide SessionInv;
  }

  lemma RemovalKeepsSessions(s: State, step: Step)
    requires SessionInv(s) && Enabled(s, step)
    requires step.RemoveConnection? || step.RemoveRoutes?
    ensures SessionInv(ApplyProcessor(s, step))
  {
    assert if step.RemoveRoutes? then s.processor.RemovingRoutes? else s.processor.RemovingConnection?;
    hide Enabled, VanishRoutesOf;
    var t := ApplyProcessor(s, step);
    forall c | c in t.connections
      ensures WasOpened(t.stages, c) && FlagsAgree(t, c)
    {
      assert FlagsAgree(s, c);
    }
    forall k | k in t.routes
      ensures KnownOrLeaving(t, t.routes[k].conn)
    {
      assert KnownOrLeaving(s, s.routes[k].conn);
    }
    forall u | u in t.listeners
      ensures KnownOrLeaving(t, t.listeners[u])
    {
      assert KnownOrLeaving(s, s.listeners[u]);
    }
  }

  lemma AcceptRequestKeepsSessions(s: State)
    requires SessionInv(s) && Enabled(s, TakeRequest) && s.transport[0].conn in s.connections
    ensures SessionInv(AcceptRequest(s))
  {
  }

  lemma DropRequestKeepsSessions(s: State)
    requires SessionInv(s) && Enabled(s, TakeRequest)
    ensures SessionInv(DropRequest(s))
  {
  }

  lemma EventKeepsSessions(s: State, step: Step)
    requires SessionInv(s) && Enabled(s, step)
    requires step.AddListener? || step.RemoveListener? || step.HandlerSends? || step.HandlerSendFails?
          || step.FinishRequest? || step.TakeOther?
          || step.TakeClosed? || step.RoutesDrained? || step.SendClosed?
    ensures SessionInv(ApplyProcessor(s, step))
  {
    hide SessionInv, Enabled, ApplyProcessor, KeepsTables;
    if step.AddListener? || step.RemoveListener? || step.TakeClosed? {
      ListenerStepShape(s, step);
    } else {
      QuietStepShape(s, step);
    }
    ListenersStayKnown(s, ApplyProcessor(s, step));
  }

  /** Connections, flags and routes stay; listeners are old ones or of the
      connection being handled. */
  ghost predicate KeepsTables(s: State, t: State) {
    && t.connections == s.connections && t.stages == s.stages && t.routes == s.routes
    && t.initializedFlags == s.initializedFlags && t.optOutFlags == s.optOutFlags
    && (forall u | u in t.listeners ::
          || (u in s.listeners && t.listeners[u] == s.listeners[u])
          || (s.processor.Handling? && t.listeners[u] == s.processor.conn))
    && !s.processor.RemovingRoutes? && !(s.processor.Handling? && s.processor.publishing)
    && (t.processor.Handling? ==>
          s.processor.Handling? && t.processor.conn == s.processor.conn && !t.processor.publishing)
  }

  lemma ListenerStepShape(s: State, step: Step)
    requires Enabled(s, step) && (step.AddListener? || step.RemoveListener? || step.TakeClosed?)
    ensures KeepsTables(s, ApplyProcessor(s, step))
  {
  }

  lemma QuietStepShape(s: State, step: Step)
    requires Enabled(s, step)
    requires step.HandlerSends? || step.HandlerSendFails? || step.FinishRequest? || step.TakeOther?
          || step.RoutesDrained? || step.SendClosed?
    ensures KeepsTables(s, ApplyProcessor(s, step))
  {
    hide IsSendable;
  }

  lemma ListenersStayKnown(s: State, t: State)
    requires SessionInv(s) && KeepsTables(s, t)
    ensures SessionInv(t)
  {
    assert forall c | KnownOrLeaving(s, c) :: KnownOrLeaving(t, c);
    assert forall k | k in t.routes :: KnownOrLeaving(s, s.routes[k].conn);
    forall u | u in t.listeners
      ensures KnownOrLeaving(t, t.listeners[u])
    {
      assert KnownOrLeaving(s, t.listeners[u]);
    }
    ProcessorKeepsSessions(s, t);
  }

  lemma HandlerSentKeepsSessions(s: State)
    requires SessionInv(s) && Enabled(s, HandlerSent)
    ensures SessionInv(ApplyHandlerSent(s))
  {
    var t := ApplyHandlerSent(s);
    forall k | k in t.routes
      ensures KnownOrLeaving(t, t.routes[k].conn)
    {
      assert KnownOrLeaving(s, s.routes[k].conn);
    }
    forall u | u in t.listeners
      ensures KnownOrLeaving(t, t.listeners[u])
    {
      assert KnownOrLeaving(s, s.listeners[u]);
    }
    ProcessorKeepsSessions(s, t);
  }

  lemma EmitKeepsSessions(s: State, send: Send)
    requires SessionInv(s) && IsSendable(s, send)
    ensures SessionInv(ApplyEmit(s, send))
  {
    OtherTasksKeepSessions(s, ApplyEmit(s, send));
    hide SessionInv, EnvelopeOf;
  }

  lemma TakeRequestKeepsSessions(s: State)
    requires SessionInv(s) && Enabled(s, TakeRequest)
    ensures SessionInv(ApplyTakeRequest(s))
  {
    DropRequestKeepsSessions(s);
    if s.transport[0].conn in s.connections {
      AcceptRequestKeepsSessions(s);
    }
    hide SessionInv, DropRequest, AcceptRequest, Enabled;
  }

  lemma EmitIsSendable(s: State, send: Send)
    requires Enabled(s, Emit(send))
    ensures IsSendable(s, send)
  {
  }

  lemma OpeningKeepsSessions(s: State, step: Step)
    requires SessionInv(s) && RegistrationInv(s) && Enabled(s, step)
    requires step.TakeOpened? || step.SendOpened? || step.TakeRequest?
    ensures SessionInv(ApplyProcessor(s, step))
  {
    hide SessionInv, RegistrationInv, ApplySendOpened, ApplyTakeRequest, Enabled;
    if step.TakeOpened? {
      TakeOpenedKeepsSessions(s, ApplyProcessor(s, step));
    } else if step.SendOpened? {
      SendOpenedKeepsSessions(s);
    } else {
      TakeRequestKeepsSessions(s);
    }
  }

  lemma ProcessorStepKeepsSessions(s: State, step: Step)
    requires SessionInv(s) && RegistrationInv(s) && Enabled(s, step)
    requires !step.IsConnectionStep() && !step.IsRouterStep()
    ensures SessionInv(Apply(s, step))
  {
    assert !step.RouterGone?;
    hide SessionInv, RegistrationInv, Enabled;
    hide ApplyRouter, ApplyConnection, ApplyProcessor, ApplyHandlerSent, ApplyEmit;
    if step.TakeOpened? || step.SendOpened? || step.TakeRequest? {
      OpeningKeepsSessions(s, step);
    } else if step.SetOptOut? || step.MarkInitialized? || step.PublishInitialized? {
      HandlerKeepsSessions(s, step);
    } else if step.RemoveConnection? || step.RemoveRoutes? {
      RemovalKeepsSessions(s, step);
    } else if step.Emit? {
      EmitIsSendable(s, step.send);
      EmitKeepsSessions(s, step.send);
    } else if step.HandlerSent? {
      HandlerSentKeepsSessions(s);
    } else {
      EventKeepsSessions(s, step);
    }
  }

  ghost predicate LifecycleInv(s: State) {
    RegistrationInv(s) && SessionInv(s)
  }

  lemma StepKeepsLifecycle(s: State, step: Step)
    requires LifecycleInv(s) && Enabled(s, step)
    ensures LifecycleInv(Apply(s, step))
  {
    hide SessionInv, RegistrationInv, ApplyConnection, ApplyProcessor, ApplyRouter, Enabled;
    StepRegisters(s, step);
    if step.IsConnectionStep() {
      ConnectionStepKeepsSessions(s, step);
    } else if step.IsRouterStep() {
      RouterStepKeepsSessions(s, step);
    } else {
      ProcessorStepKeepsSessions(s, step);
    }
  }

  lemma InitHasLifecycle(s: State)
    requires Init(s)
    ensures LifecycleInv(s)
  {
  }

  lemma {:induction false} LifecycleAlongRun(states: seq<State>, steps: seq<Step>, i: nat)
    requires IsRun(states, steps) && i < |states|
    ensures LifecycleInv(states[i])
  {
    if i == 0 {
      InitHasLifecycle(states[0]);
    } else {
      LifecycleAlongRun(states, steps, i - 1);
      StepKeepsLifecycle(states[i - 1], steps[i - 1]);
    }
  }

  // ---------------------------------------------------------------- theorems

  /** At every event boundary of the processor each route and each listener
      belongs to a live connection, and the session state of a connection
      agrees with the flags the router reads. */
  lemma TablesAgreeAtEventBoundaries(states: seq<State>, steps: seq<Step>, i: nat)
    requires IsRun(states, steps) && i < |states| && states[i].processor.Idle?
    ensures forall k | k in states[i].routes :: states[i].routes[k].conn in states[i].connections
    ensures forall u | u in states[i].listeners :: states[i].listeners[u] in states[i].connections
    ensures forall c | c in states[i].connections ::
              && (states[i].connections[c].initialized <==> c in states[i].initializedFlags)
              && states[i].connections[c].optedOut == PublishedOptOut(states[i], c)
  {
    LifecycleAlongRun(states, steps, i);
    var s := states[i];
    forall k | k in s.routes
      ensures s.routes[k].conn in s.connections
    {
      assert KnownOrLeaving(s, s.routes[k].conn);
    }
    forall u | u in s.listeners
      ensures s.listeners[u] in s.connections
    {
      assert KnownOrLeaving(s, s.listeners[u]);
    }
    forall c | c in s.connections
      ensures (s.connections[c].initialized <==> c in s.initializedFlags)
      ensures s.connections[c].optedOut == PublishedOptOut(s, c)
    {
      assert FlagsAgree(s, c);
    }
  }

  /** The router asks for a connection to be closed at most once in a run,
      never for one it still serves, and in the order it removed them. */
  lemma RouterClosesOnce(states: seq<State>, steps: seq<Step>, i: nat)
    requires IsRun(states, steps) && i < |states|
    ensures var s := states[i];
            && (forall k, l | 0 <= k < l < |s.routerCloses| :: s.routerCloses[k] != s.routerCloses[l])
            && (forall k | 0 <= k < |s.routerCloses| :: s.routerCloses[k] !in s.outbound)
            && (forall k | 0 <= k < |s.pendingClosed| :: s.pendingClosed[k] in s.routerCloses)
  {
    LifecycleAlongRun(states, steps, i);
    var s := states[i];
    forall k | 0 <= k < |s.routerCloses|
      ensures s.routerCloses[k] !in s.outbound
    {
      assert HasStage(s.stages, s.routerCloses[k], Unregistered);
      assert s.routerCloses[k] in s.outbound <==> HasStage(s.stages, s.routerCloses[k], Registered);
    }
  }

  /** Nothing in the processor's tables belongs to `c`. */
  ghost predicate IsForgotten(s: State, c: ConnectionId) {
    && c !in s.connections
    && !HasRoutesOf(s.routes, c)
    && (forall u | u in s.listeners :: s.listeners[u] != c)
  }

  lemma ForgottenAtBoundary(s: State, c: ConnectionId)
    requires SessionInv(s) && s.processor.Idle? && c !in s.connections
    ensures IsForgotten(s, c)
  {
  }

  /** While the close of a forgotten connection is processed, no step of the
      processor changes its tables. */
  lemma ClosingForgottenIsNoOp(s: State, step: Step, c: ConnectionId)
    requires IsForgotten(s, c) && Enabled(s, step) && !step.IsConnectionStep() && !step.IsRouterStep()
    requires (step.TakeClosed? && s.transport[0].conn == c)
          || (s.processor.IsClosing() && s.processor.conn == c)
    ensures var t := Apply(s, step);
            t.connections == s.connections && t.routes == s.routes && t.listeners == s.listeners
  {
  }

  /** What a step of another task may change of the processor's tables. */
  ghost predicate OnlyRemovesRoutes(s: State, t: State) {
    && t.connections == s.connections && t.listeners == s.listeners && t.processor == s.processor
    && forall k | k in t.routes :: k in s.routes && t.routes[k] == s.routes[k]
  }

  lemma RouterLeavesTables(s: State, step: Step)
    requires Enabled(s, step) && step.IsRouterStep()
    ensures OnlyRemovesRoutes(s, ApplyRouter(s, step))
  {
    RouterStaysInside(s, step);
    if step.RouterTake? {
      RewriteOnlyRemoves(s, s.outgoing[0]);
    } else {
      hide ApplyRouter;
    }
    hide Enabled, Rewrite;
  }

  lemma OtherTasksKeepForgotten(s: State, step: Step, c: ConnectionId)
    requires IsForgotten(s, c) && Enabled(s, step) && (step.IsConnectionStep() || step.IsRouterStep())
    ensures IsForgotten(Apply(s, step), c) && OnlyRemovesRoutes(s, Apply(s, step))
  {
    hide ApplyProcessor, ApplyConnection, ApplyRouter, Enabled;
    if step.IsConnectionStep() {
      ConnectionStaysInside(s, step);
    } else {
      RouterLeavesTables(s, step);
    }
  }

  /** A second ConnectionClosed changes nothing: from the moment the processor
      takes it until the processor is done with it, connections and listeners
      stay as they were, and routes only go away one by one as the router
      answers other connections' requests. */
  lemma {:induction false} SecondCloseChangesNothing(
      states: seq<State>, steps: seq<Step>, i: nat, j: nat, c: ConnectionId)
    requires IsRun(states, steps) && i < j < |states|
    requires steps[i] == TakeClosed && states[i].transport[0].conn == c && c !in states[i].connections
    requires forall k | i < k < j :: states[k].processor.IsClosing()
    ensures states[j].connections == states[i].connections && states[j].listeners == states[i].listeners
    ensures forall k | k in states[j].routes :: k in states[i].routes && states[j].routes[k] == states[i].routes[k]
    ensures IsForgotten(states[j], c)
    ensures states[j].processor.IsClosing() ==> states[j].processor.conn == c
    decreases j
  {
    LifecycleAlongRun(states, steps, i);
    ForgottenAtBoundary(states[i], c);
    var s, step := states[j - 1], steps[j - 1];
    if j - 1 > i {
      SecondCloseChangesNothing(states, steps, i, j - 1, c);
    }
    if step.IsConnectionStep() || step.IsRouterStep() {
      OtherTasksKeepForgotten(s, step, c);
    } else {
      ClosingForgottenIsNoOp(s, step, c);
      ClosingKeepsConn(s, step);
    }
  }

  lemma ClosingKeepsConn(s: State, step: Step)
    requires Enabled(s, step) && !step.IsConnectionStep() && !step.IsRouterStep()
    requires step.TakeClosed? || s.processor.IsClosing()
    ensures var t := Apply(s, step);
            t.processor.IsClosing() ==>
              t.processor.conn == if step.TakeClosed? then s.transport[0].conn else s.processor.conn
  {
  }
}
