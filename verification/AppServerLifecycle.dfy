/** Connections from handshake to removal: what the processor, the router and
    the shared tables agree on at every event boundary. */
module AppServerLifecycle {
  import opened Text
  import opened RequestRouting
  import opened AppServer
  import opened AppServerFrames

  type Stages = map<ConnectionId, Stage>

  predicate HasStage(stages: Stages, c: ConnectionId, stage: Stage) {
    c in stages && stages[c] == stage
  }

  /** The processor has told the router about `c`. */
  predicate WasOpened(stages: Stages, c: ConnectionId) {
    c in stages && (stages[c].Controlled? || stages[c].Registered? || stages[c].Unregistered?)
  }

  // --------------------------------------------- registration with the router

  ghost predicate SameConnections(s: State) {
    && s.stages.Keys == s.sockets.Keys == s.writers.Keys
    && (forall c | c in s.sockets :: c < s.nextConnectionId)
    && (forall c | c in s.sockets :: s.sockets[c].Handshaking? <==> s.stages[c].Unannounced?)
  }

  ghost predicate AnnouncedOnce(transport: seq<TransportEvent>, stages: Stages) {
    && (forall i | 0 <= i < |transport| && transport[i].ConnectionOpened? ::
          HasStage(stages, transport[i].conn, Announced))
    && (forall i, j | 0 <= i < j < |transport| && transport[i].ConnectionOpened? && transport[j].ConnectionOpened? ::
          transport[i].conn != transport[j].conn)
  }

  ghost predicate ControlledOnce(control: seq<ControlEvent>, stages: Stages) {
    && (forall i | 0 <= i < |control| && control[i].Opened? :: HasStage(stages, control[i].conn, Controlled))
    && (forall i, j | 0 <= i < j < |control| && control[i].Opened? && control[j].Opened? ::
          control[i].conn != control[j].conn)
  }

  ghost predicate OutboundIsRegistered(outbound: set<ConnectionId>, stages: Stages) {
    forall c :: c in outbound <==> HasStage(stages, c, Registered)
  }

  /** The router queued at most one close per connection, each for a
      connection it had removed; what is still pending is the end of that
      history. */
  ghost predicate ClosesAreUnique(routerCloses: seq<ConnectionId>, pending: seq<ConnectionId>, stages: Stages) {
    && (forall i | 0 <= i < |routerCloses| :: HasStage(stages, routerCloses[i], Unregistered))
    && (forall i, j | 0 <= i < j < |routerCloses| :: routerCloses[i] != routerCloses[j])
    && |pending| <= |routerCloses|
    && pending == routerCloses[|routerCloses| - |pending|..]
  }

  ghost predicate RegistrationInv(s: State) {
    && SameConnections(s)
    && AnnouncedOnce(s.transport, s.stages)
    && (forall c :: HasStage(s.stages, c, BeingOpened) <==> s.processor == Opening(c))
    && (s.router.RouterExited? ==> s.processor.ProcessorExited?)
    && ControlledOnce(s.control, s.stages)
    && OutboundIsRegistered(s.outbound, s.stages)
    && ClosesAreUnique(s.routerCloses, s.pendingClosed, s.stages)
  }

  /** Moving one connection to another stage affects only what mentions it. */
  lemma StageFrame(s: State, c: ConnectionId, stage: Stage)
    requires RegistrationInv(s)
    ensures var stages := s.stages[c := stage];
            && (!HasStage(s.stages, c, Announced) ==> AnnouncedOnce(s.transport, stages))
            && (!HasStage(s.stages, c, Controlled) ==> ControlledOnce(s.control, stages))
            && (!HasStage(s.stages, c, Registered) && stage != Registered ==> OutboundIsRegistered(s.outbound, stages))
            && (!HasStage(s.stages, c, Unregistered) ==> ClosesAreUnique(s.routerCloses, s.pendingClosed, stages))
  {
  }

  lemma UpdateKeepsKeys<K, V>(m: map<K, V>, k: K, v: V)
    requires k in m
    ensures m[k := v].Keys == m.Keys
  {
  }

  lemma AcceptRegisters(s: State)
    requires RegistrationInv(s)
    ensures RegistrationInv(ApplyAccept(s))
  {
  }

  lemma AnnounceRegisters(s: State, c: ConnectionId)
    requires RegistrationInv(s) && Enabled(s, Announce(c))
    ensures RegistrationInv(ApplyAnnounce(s, c))
  {
  }

  lemma TakeOpenedRegisters(s: State, t: State)
    requires RegistrationInv(s) && Enabled(s, TakeOpened)
    requires t == s.(transport := s.transport[1..], processor := Opening(s.transport[0].conn),
                     stages := s.stages[s.transport[0].conn := BeingOpened])
    ensures RegistrationInv(t)
  {
    var c := s.transport[0].conn;
    StageFrame(s, c, BeingOpened);
    assert HasStage(s.stages, c, Announced);
    assert HasStage(t.stages, c, BeingOpened);
    forall i | 0 <= i < |t.transport| && t.transport[i].ConnectionOpened?
      ensures HasStage(t.stages, t.transport[i].conn, Announced)
    {
      assert t.transport[i] == s.transport[i + 1];
      assert HasStage(s.stages, s.transport[i + 1].conn, Announced);
    }
    forall d
      ensures HasStage(t.stages, d, BeingOpened) <==> d == c
    {
      assert HasStage(s.stages, d, BeingOpened) <==> s.processor == Opening(d);
    }
    hide ControlledOnce, OutboundIsRegistered, ClosesAreUnique, Enabled;
  }

  lemma SendOpenedRegisters(s: State)
    requires RegistrationInv(s) && Enabled(s, SendOpened)
    ensures RegistrationInv(ApplySendOpened(s))
  {
    var c := s.processor.conn;
    var t := ApplySendOpened(s);
    assert HasStage(s.stages, c, BeingOpened);
    StageFrame(s, c, Controlled);
    forall i | 0 <= i < |s.control| && s.control[i].Opened?
      ensures s.control[i].conn != c
    {
      assert HasStage(s.stages, s.control[i].conn, Controlled);
    }
    forall d
      ensures !HasStage(t.stages, d, BeingOpened)
    {
      assert HasStage(s.stages, d, BeingOpened) <==> s.processor == Opening(d);
    }
    hide AnnouncedOnce, OutboundIsRegistered, ClosesAreUnique, Enabled;
  }

  lemma RouterControlRegisters(s: State)
    requires RegistrationInv(s) && Enabled(s, RouterControl)
    ensures RegistrationInv(ApplyRouterControl(s))
  {
    var c := s.control[0].conn;
    var t := ApplyRouterControl(s);
    assert s.control[0].Opened? ==> HasStage(s.stages, c, Controlled);
    assert c in s.outbound ==> HasStage(s.stages, c, Registered);
    StageFrame(s, c, if s.control[0].Opened? then Registered else Unregistered);
    forall i | 0 <= i < |t.control| && t.control[i].Opened?
      ensures HasStage(t.stages, t.control[i].conn, Controlled)
    {
      assert t.control[i] == s.control[i + 1];
      assert HasStage(s.stages, s.control[i + 1].conn, Controlled);
    }
    forall d
      ensures HasStage(t.stages, d, BeingOpened) <==> HasStage(s.stages, d, BeingOpened)
      ensures d in t.outbound <==> HasStage(t.stages, d, Registered)
    {
    }
    hide AnnouncedOnce, ClosesAreUnique, Enabled;
  }

  lemma DisconnectRegisters(s: State)
    requires RegistrationInv(s) && s.router.Delivering? && s.router.targets != []
    requires s.router.targets[0] in s.outbound
    ensures RegistrationInv(DisconnectTarget(s, s.router.targets[0]))
  {
  }

  /** Steps that move no connection to another stage. */
  lemma SameStages(s: State, t: State)
    requires RegistrationInv(s) && t.stages == s.stages && t.outbound == s.outbound
    requires t.nextConnectionId == s.nextConnectionId
    requires t.sockets.Keys == s.sockets.Keys && t.writers.Keys == s.writers.Keys
    requires forall c | c in s.sockets :: t.sockets[c].Handshaking? <==> s.sockets[c].Handshaking?
    requires t.processor == s.processor || (!t.processor.Opening? && !s.processor.Opening?)
    requires t.router.RouterExited? ==> t.processor.ProcessorExited?
    requires AnnouncedOnce(t.transport, s.stages) && ControlledOnce(t.control, s.stages)
    requires ClosesAreUnique(t.routerCloses, t.pendingClosed, s.stages)
    ensures RegistrationInv(t)
  {
  }

  lemma TransportOps(s: State, e: TransportEvent)
    requires AnnouncedOnce(s.transport, s.stages)
    ensures !e.ConnectionOpened? ==> AnnouncedOnce(s.transport + [e], s.stages)
    ensures s.transport != [] ==> AnnouncedOnce(s.transport[1..], s.stages)
  {
  }

  lemma ControlPush(s: State, c: ConnectionId)
    requires ControlledOnce(s.control, s.stages)
    ensures ControlledOnce(s.control + [Closed(c)], s.stages)
  {
  }

  lemma FlushPending(s: State)
    requires ClosesAreUnique(s.routerCloses, s.pendingClosed, s.stages) && s.pendingClosed != []
    ensures ClosesAreUnique(s.routerCloses, s.pendingClosed[1..], s.stages)
  {
  }

  lemma ReadRequestRegisters(s: State, c: ConnectionId, id: RequestId)
    requires RegistrationInv(s) && Enabled(s, ReadRequest(c, id))
    ensures RegistrationInv(ApplyReadRequest(s, c, id))
  {
    TransportOps(s, IncomingMessage(c, InRequest(id, |s.received|)));
    UpdateKeepsKeys(s.sockets, c, Closing);
    SameStages(s, EnqueueRequest(s, c, id));
    SameStages(s, LoseRequest(s, c, id, Unheard, true));
    SameStages(s, LoseRequest(s, c, id, Refused(false), !s.writers[c].open));
    SameStages(s, RefuseRequest(s, c, id));
    hide RegistrationInv, EnqueueRequest, LoseRequest, RefuseRequest, Enabled;
  }

  lemma WriterStepRegisters(s: State, c: ConnectionId, w: Writer)
    requires RegistrationInv(s) && c in s.writers
    ensures RegistrationInv(s.(writers := s.writers[c := w]))
  {
  }

  lemma SocketStepRegisters(s: State, step: Step)
    requires RegistrationInv(s) && Enabled(s, step)
    requires step.ReadOther? || step.Disconnect? || step.AnnounceClose?
    ensures RegistrationInv(ApplyConnection(s, step))
  {
    var t := ApplyConnection(s, step);
    TransportOps(s, if step.ReadOther? then IncomingMessage(step.conn, InOther) else ConnectionClosed(step.conn));
    UpdateKeepsKeys(s.sockets, step.conn, t.sockets[step.conn]);
    hide AnnouncedOnce, ControlledOnce, OutboundIsRegistered, ClosesAreUnique;
    SameStages(s, t);
  }

  lemma ConnectionStepRegisters(s: State, step: Step)
    requires RegistrationInv(s) && Enabled(s, step) && step.IsConnectionStep()
    ensures RegistrationInv(Apply(s, step))
  {
    hide ApplyRouter, ApplyProcessor, ApplyEmit, RegistrationInv;
    if step.Accept? {
      AcceptRegisters(s);
    } else if step.Announce? {
      AnnounceRegisters(s, step.conn);
    } else if step.ReadRequest? {
      ReadRequestRegisters(s, step.conn, step.id);
    } else if step.DrainWriter? || step.CloseWriter? {
      WriterStepRegisters(s, step.conn, Apply(s, step).writers[step.conn]);
    } else {
      SocketStepRegisters(s, step);
    }
  }

  lemma ProcessorStepRegisters(s: State, step: Step)
    requires RegistrationInv(s) && Enabled(s, step) && !step.IsConnectionStep() && !step.IsRouterStep()
    ensures RegistrationInv(Apply(s, step))
  {
    hide ApplyRouter, ApplyConnection, RegistrationInv;
    if step.TakeOpened? {
      TakeOpenedRegisters(s, Apply(s, step));
    } else if step.SendOpened? {
      SendOpenedRegisters(s);
      hide ApplySendOpened;
    } else if step.Emit? || step.HandlerSent? {
      EmitRegisters(s, step);
    } else {
      hide ApplyProcessor;
      EventRegisters(s, step);
    }
  }

  lemma EmitRegisters(s: State, step: Step)
    requires RegistrationInv(s) && Enabled(s, step) && (step.Emit? || step.HandlerSent?)
    ensures RegistrationInv(Apply(s, step))
  {
    hide AnnouncedOnce, ControlledOnce, OutboundIsRegistered, ClosesAreUnique, ApplyRouter, ApplyConnection;
    SameStages(s, Apply(s, step));
  }

  /** The processor's steps that register nobody. */
  lemma EventRegisters(s: State, step: Step)
    requires RegistrationInv(s) && Enabled(s, step) && !step.IsConnectionStep() && !step.IsRouterStep()
    requires !step.TakeOpened? && !step.SendOpened? && !step.Emit? && !step.HandlerSent?
    ensures RegistrationInv(ApplyProcessor(s, step))
  {
    hide AnnouncedOnce, ControlledOnce, OutboundIsRegistered, ClosesAreUnique;
    if step.SendClosed? {
      SendClosedRegisters(s);
      hide ApplyProcessor;
    } else if step.TakeRequest? || step.TakeOther? || step.TakeClosed? {
      TakeEventRegisters(s, step);
      hide ApplyProcessor;
    } else {
      hide ApplySendOpened, ApplyTakeRequest, ApplyTakeClosed, WithoutRoutesOf, VanishRoutesOf, WithoutListenersOf;
      SameStages(s, ApplyProcessor(s, step));
    }
  }

  lemma TakeEventRegisters(s: State, step: Step)
    requires RegistrationInv(s) && Enabled(s, step) && (step.TakeRequest? || step.TakeOther? || step.TakeClosed?)
    ensures RegistrationInv(ApplyProcessor(s, step))
  {
    hide AnnouncedOnce, ControlledOnce, OutboundIsRegistered, ClosesAreUnique, SetFate;
    TransportOps(s, ConnectionClosed(0));
    ProcessorStaysInside(s, step);
    TakenEvent(s, step);
    hide ApplyProcessor;
    SameStages(s, ApplyProcessor(s, step));
  }

  /** Taking an event that opens nothing. */
  lemma TakenEvent(s: State, step: Step)
    requires Enabled(s, step) && (step.TakeRequest? || step.TakeOther? || step.TakeClosed?)
    ensures IsAfterEvent(s, ApplyProcessor(s, step)) && s.processor.Idle?
  {
    if step.TakeClosed? {
      assert IsAfterEvent(s, ApplyTakeClosed(s));
    } else if step.TakeRequest? {
      assert IsAfterEvent(s, DropRequest(s)) && IsAfterEvent(s, AcceptRequest(s));
      hide IsAfterEvent;
    }
    hide ApplyTakeClosed, DropRequest, AcceptRequest, SetFate, Enabled;
  }

  ghost predicate IsAfterEvent(s: State, t: State)
    requires s.transport != []
  {
    && t.transport == s.transport[1..] && t.control == s.control && t.stages == s.stages
    && !t.processor.Opening? && !t.processor.ProcessorExited?
  }

  lemma SendClosedRegisters(s: State)
    requires RegistrationInv(s) && Enabled(s, SendClosed)
    ensures RegistrationInv(ApplyProcessor(s, SendClosed))
  {
    ControlPush(s, s.processor.conn);
    hide AnnouncedOnce, ControlledOnce, OutboundIsRegistered, ClosesAreUnique;
    SameStages(s, ApplyProcessor(s, SendClosed));
  }

  lemma RouterDeliverRegisters(s: State)
    requires RegistrationInv(s) && Enabled(s, RouterDeliver)
    ensures RegistrationInv(ApplyRouterDeliver(s))
  {
    var c := s.router.targets[0];
    SameStages(s, SkipTarget(s));
    if c in s.outbound {
      DisconnectRegisters(s);
    }
    if c in s.writers {
      UpdateKeepsKeys(s.writers, c, PushWriter(s, c, s.router.message)[c]);
      SameStages(s, DeliverTo(s, c));
    }
    hide RegistrationInv, SkipTarget, DisconnectTarget, DeliverTo, Enabled;
  }

  lemma RouterQueueRegisters(s: State, step: Step)
    requires RegistrationInv(s) && Enabled(s, step) && step.IsRouterStep()
    requires !step.RouterControl? && !step.RouterDeliver?
    ensures RegistrationInv(ApplyRouter(s, step))
  {
    if step.RouterFlush? {
      TransportOps(s, ConnectionClosed(s.pendingClosed[0]));
      FlushPending(s);
    }
    hide AnnouncedOnce, ControlledOnce, OutboundIsRegistered, ClosesAreUnique, ApplyRouterControl, ApplyRouterDeliver;
    SameStages(s, ApplyRouter(s, step));
  }

  lemma RouterStepRegisters(s: State, step: Step)
    requires RegistrationInv(s) && Enabled(s, step) && step.IsRouterStep()
    ensures RegistrationInv(Apply(s, step))
  {
    hide ApplyConnection, ApplyProcessor, ApplyEmit, ApplyRouterDeliver, ApplyRouterControl, RegistrationInv;
    if step.RouterControl? {
      RouterControlRegisters(s);
    } else if step.RouterDeliver? {
      RouterDeliverRegisters(s);
    } else {
      RouterQueueRegisters(s, step);
    }
  }

  lemma StepRegisters(s: State, step: Step)
    requires RegistrationInv(s) && Enabled(s, step)
    ensures RegistrationInv(Apply(s, step))
  {
    hide RegistrationInv, Apply, Enabled;
    if step.IsConnectionStep() {
      ConnectionStepRegisters(s, step);
    } else if step.IsRouterStep() {
      RouterStepRegisters(s, step);
    } else {
      ProcessorStepRegisters(s, step);
    }
  }
}
