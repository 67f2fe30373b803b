/** The transport channel keeps the order of each connection's events: nothing
    from a connection is handled before the connection was opened. */
module AppServerArrival {
  import opened Text
  import opened RequestRouting
  import opened AppServer
  import opened AppServerAnswers
  import opened AppServerLifecycle
  import opened AppServerSessions

  /** The processor has taken the event that announced `c`. */
  predicate IsPastAnnounced(stages: Stages, c: ConnectionId) {
    c in stages && !stages[c].Unannounced? && !stages[c].Announced?
  }

  /** The events before position `i` announce `c`, or it was taken before. */
  ghost predicate IsAnnouncedBefore(transport: seq<TransportEvent>, stages: Stages, i: nat, c: ConnectionId)
    requires i <= |transport|
  {
    IsPastAnnounced(stages, c) || exists j: nat :: j < i && transport[j] == ConnectionOpened(c)
  }

  ghost predicate OpenedFirst(transport: seq<TransportEvent>, stages: Stages) {
    forall i | 0 <= i < |transport| && IsRequestEvent(transport[i]) ::
      IsAnnouncedBefore(transport, stages, i, transport[i].conn)
  }

  ghost predicate AnnouncedAreQueued(transport: seq<TransportEvent>, stages: Stages) {
    forall c | HasStage(stages, c, Announced) :: ConnectionOpened(c) in transport
  }

  ghost predicate NoneUnheard(received: seq<Received>) {
    forall r | 0 <= r < |received| :: !received[r].fate.Unheard?
  }

  ghost predicate ArrivalInv(s: State) {
    && OpenedFirst(s.transport, s.stages)
    && AnnouncedAreQueued(s.transport, s.stages)
    && (!s.processor.ProcessorExited? ==> NoneUnheard(s.received))
  }

  // ------------------------------------------------------------------ frames

  /** No connection is newly announced, none forgotten. */
  ghost predicate SameAnnouncements(a: Stages, b: Stages) {
    && (forall c | IsPastAnnounced(a, c) :: IsPastAnnounced(b, c))
    && (forall c | HasStage(b, c, Announced) :: HasStage(a, c, Announced))
  }

  lemma SameOrder(transport: seq<TransportEvent>, a: Stages, b: Stages)
    requires OpenedFirst(transport, a) && AnnouncedAreQueued(transport, a) && SameAnnouncements(a, b)
    ensures OpenedFirst(transport, b) && AnnouncedAreQueued(transport, b)
  {
    forall i | 0 <= i < |transport| && IsRequestEvent(transport[i])
      ensures IsAnnouncedBefore(transport, b, i, transport[i].conn)
    {
      assert IsAnnouncedBefore(transport, a, i, transport[i].conn);
    }
  }

  lemma PushInOrder(transport: seq<TransportEvent>, stages: Stages, e: TransportEvent)
    requires OpenedFirst(transport, stages) && AnnouncedAreQueued(transport, stages)
    requires IsRequestEvent(e) ==> IsAnnouncedBefore(transport, stages, |transport|, e.conn)
    ensures OpenedFirst(transport + [e], stages) && AnnouncedAreQueued(transport + [e], stages)
  {
    var longer := transport + [e];
    forall i | 0 <= i < |longer| && IsRequestEvent(longer[i])
      ensures IsAnnouncedBefore(longer, stages, i, longer[i].conn)
    {
      var c := longer[i].conn;
      assert IsAnnouncedBefore(transport, stages, i, c);
      if !IsPastAnnounced(stages, c) {
        var j: nat :| j < i && transport[j] == ConnectionOpened(c);
        assert longer[j] == ConnectionOpened(c);
      }
    }
  }

  /** The first event is taken; if it announces a connection, that one is past. */
  lemma PopInOrder(transport: seq<TransportEvent>, a: Stages, b: Stages)
    requires OpenedFirst(transport, a) && AnnouncedAreQueued(transport, a) && SameAnnouncements(a, b)
    requires transport != [] && (transport[0].ConnectionOpened? ==> IsPastAnnounced(b, transport[0].conn))
    ensures OpenedFirst(transport[1..], b) && AnnouncedAreQueued(transport[1..], b)
  {
    var rest := transport[1..];
    forall i | 0 <= i < |rest| && IsRequestEvent(rest[i])
      ensures IsAnnouncedBefore(rest, b, i, rest[i].conn)
    {
      var c := rest[i].conn;
      assert rest[i] == transport[i + 1] && IsAnnouncedBefore(transport, a, i + 1, c);
      if !IsPastAnnounced(b, c) {
        var j: nat :| j < i + 1 && transport[j] == ConnectionOpened(c);
        assert j > 0 && rest[j - 1] == ConnectionOpened(c);
      }
    }
    forall c | HasStage(b, c, Announced)
      ensures ConnectionOpened(c) in rest
    {
      assert ConnectionOpened(c) in transport && transport == [transport[0]] + rest;
    }
  }

  lemma OtherFateHeard(received: seq<Received>, origin: Option<nat>, fate: Fate)
    requires NoneUnheard(received) && !fate.Unheard?
    ensures NoneUnheard(SetFateOf(received, origin, fate))
  {
  }

  // --------------------------------------------------- steps of connections

  lemma ReadArrives(s: State, c: ConnectionId, id: RequestId)
    requires ArrivalInv(s) && SameConnections(s) && Enabled(s, ReadRequest(c, id))
    ensures ArrivalInv(ApplyReadRequest(s, c, id))
  {
    var e := IncomingMessage(c, InRequest(id, |s.received|));
    assert IsAnnouncedBefore(s.transport, s.stages, |s.transport|, c) by {
      if !IsPastAnnounced(s.stages, c) {
        assert HasStage(s.stages, c, Announced);
        assert ConnectionOpened(c) in s.transport;
      }
    }
    PushInOrder(s.transport, s.stages, e);
    hide OpenedFirst, AnnouncedAreQueued, IsAnnouncedBefore;
    assert ArrivalInv(EnqueueRequest(s, c, id)) && ArrivalInv(RefuseRequest(s, c, id));
    assert forall stop :: ArrivalInv(LoseRequest(s, c, id, Refused(false), stop));
    assert s.processor.ProcessorExited? ==> ArrivalInv(LoseRequest(s, c, id, Unheard, true));
    hide ArrivalInv, EnqueueRequest, RefuseRequest, LoseRequest;
  }

  lemma AcceptArrives(s: State)
    requires ArrivalInv(s) && SameConnections(s)
    ensures ArrivalInv(ApplyAccept(s))
  {
    SameOrder(s.transport, s.stages, ApplyAccept(s).stages);
    hide OpenedFirst, AnnouncedAreQueued, NoneUnheard;
  }

  lemma AnnounceArrives(s: State, c: ConnectionId)
    requires ArrivalInv(s) && SameConnections(s) && Enabled(s, Announce(c))
    ensures ArrivalInv(ApplyAnnounce(s, c))
  {
    var t := ApplyAnnounce(s, c);
    assert HasStage(s.stages, c, Unannounced);
    PushInOrder(s.transport, s.stages, ConnectionOpened(c));
    forall i | 0 <= i < |t.transport| && IsRequestEvent(t.transport[i])
      ensures IsAnnouncedBefore(t.transport, t.stages, i, t.transport[i].conn)
    {
      assert IsAnnouncedBefore(t.transport, s.stages, i, t.transport[i].conn);
    }
    assert t.transport[|s.transport|] == ConnectionOpened(c);
    hide NoneUnheard, Enabled;
  }

  lemma ConnectionArrives(s: State, step: Step)
    requires ArrivalInv(s) && RegistrationInv(s) && Enabled(s, step) && step.IsConnectionStep()
    ensures ArrivalInv(ApplyConnection(s, step))
  {
    hide RegistrationInv, SameConnections, ApplyReadRequest, ApplyAccept, ApplyAnnounce, Enabled, ArrivalInv;
    RegisteredConnections(s);
    if step.ReadRequest? {
      ReadArrives(s, step.conn, step.id);
    } else if step.Accept? {
      AcceptArrives(s);
    } else if step.Announce? {
      AnnounceArrives(s, step.conn);
    } else {
      OtherConnectionArrives(s, step);
    }
  }

  lemma OtherConnectionArrives(s: State, step: Step)
    requires ArrivalInv(s) && Enabled(s, step) && step.IsConnectionStep()
    requires !step.ReadRequest? && !step.Accept? && !step.Announce?
    ensures ArrivalInv(ApplyConnection(s, step))
  {
    hide OpenedFirst, AnnouncedAreQueued, NoneUnheard, Enabled;
    if step.ReadOther? {
      PushInOrder(s.transport, s.stages, IncomingMessage(step.conn, InOther));
    } else if step.AnnounceClose? {
      PushInOrder(s.transport, s.stages, ConnectionClosed(step.conn));
    }
  }

  lemma RegisteredConnections(s: State)
    requires RegistrationInv(s)
    ensures SameConnections(s)
  {
  }

  // ----------------------------------------------------- steps of the router

  lemma RouterControlArrives(s: State)
    requires ArrivalInv(s) && RegistrationInv(s) && Enabled(s, RouterControl)
    ensures ArrivalInv(ApplyRouterControl(s))
  {
    var c := s.control[0].conn;
    assert ControlledOnce(s.control, s.stages) && OutboundIsRegistered(s.outbound, s.stages);
    assert s.control[0].Opened? ==> HasStage(s.stages, c, Controlled);
    SameOrder(s.transport, s.stages, ApplyRouterControl(s).stages);
    hide OpenedFirst, AnnouncedAreQueued, NoneUnheard, RegistrationInv, ControlledOnce, OutboundIsRegistered, Enabled;
  }

  lemma RouterDeliverArrives(s: State)
    requires ArrivalInv(s) && OutboundIsRegistered(s.outbound, s.stages) && Enabled(s, RouterDeliver)
    ensures ArrivalInv(ApplyRouterDeliver(s))
  {
    var c := s.router.targets[0];
    if !s.processor.ProcessorExited? {
      OtherFateHeard(s.received, s.router.origin, Lost);
      OtherFateHeard(s.received, s.router.origin, Answered);
    }
    hide OpenedFirst, AnnouncedAreQueued, NoneUnheard, SetFateOf;
    assert ArrivalInv(SkipTarget(s));
    if c in s.outbound {
      assert HasStage(s.stages, c, Registered);
      SameOrder(s.transport, s.stages, DisconnectTarget(s, c).stages);
      assert ArrivalInv(DisconnectTarget(s, c));
      if c in s.writers {
        assert ArrivalInv(DeliverTo(s, c));
      }
    }
    hide ArrivalInv, SkipTarget, DisconnectTarget, DeliverTo, OutboundIsRegistered, Enabled;
  }

  lemma RouterArrives(s: State, step: Step)
    requires ArrivalInv(s) && RegistrationInv(s) && Enabled(s, step) && step.IsRouterStep()
    ensures ArrivalInv(ApplyRouter(s, step))
  {
    hide ArrivalInv, RegistrationInv, Enabled;
    hide ApplyRouterControl, ApplyRouterDeliver, ApplyRouterTake, ApplyRouterTargets;
    if step.RouterControl? {
      RouterControlArrives(s);
    } else if step.RouterDeliver? {
      RegisteredOutbound(s);
      RouterDeliverArrives(s);
    } else if step.RouterTake? || step.RouterTargets? {
      EnvelopeArrives(s, step);
    } else {
      FlushArrives(s, step);
    }
  }

  lemma EnvelopeArrives(s: State, step: Step)
    requires ArrivalInv(s) && Enabled(s, step) && (step.RouterTake? || step.RouterTargets?)
    ensures ArrivalInv(ApplyRouter(s, step))
  {
    hide OpenedFirst, AnnouncedAreQueued, NoneUnheard, SetFateOf, Rewrite, Targets, Enumerates;
    if !s.processor.ProcessorExited? {
      if step.RouterTake? {
        OtherFateHeard(s.received, OriginOf(s, s.outgoing[0]), InFlight);
      } else {
        OtherFateHeard(s.received, s.router.origin, Lost);
      }
    }
  }

  lemma FlushArrives(s: State, step: Step)
    requires ArrivalInv(s) && Enabled(s, step) && step.IsRouterStep()
    requires !step.RouterControl? && !step.RouterDeliver? && !step.RouterTake? && !step.RouterTargets?
    ensures ArrivalInv(ApplyRouter(s, step))
  {
    hide OpenedFirst, AnnouncedAreQueued, NoneUnheard;
    if step.RouterFlush? {
      PushInOrder(s.transport, s.stages, ConnectionClosed(s.pendingClosed[0]));
    }
    hide Enabled;
  }

  lemma RegisteredOutbound(s: State)
    requires RegistrationInv(s)
    ensures OutboundIsRegistered(s.outbound, s.stages)
  {
  }

  // -------------------------------------------------- steps of the processor

  lemma TakeOpenedArrives(s: State)
    requires ArrivalInv(s) && RegistrationInv(s) && Enabled(s, TakeOpened)
    ensures ArrivalInv(ApplyProcessor(s, TakeOpened))
  {
    var t, c := ApplyProcessor(s, TakeOpened), s.transport[0].conn;
    assert AnnouncedOnce(s.transport, s.stages) && HasStage(s.stages, c, Announced);
    PopInOrder(s.transport, s.stages, t.stages);
    hide OpenedFirst, AnnouncedAreQueued, NoneUnheard, RegistrationInv, Enabled;
  }

  lemma SendOpenedArrives(s: State)
    requires ArrivalInv(s) && RegistrationInv(s) && Enabled(s, SendOpened)
    ensures ArrivalInv(ApplySendOpened(s))
  {
    assert HasStage(s.stages, s.processor.conn, BeingOpened);
    SameOrder(s.transport, s.stages, ApplySendOpened(s).stages);
    hide OpenedFirst, AnnouncedAreQueued, NoneUnheard, RegistrationInv, Enabled;
  }

  lemma TakeRequestArrives(s: State)
    requires ArrivalInv(s) && Enabled(s, TakeRequest)
    ensures ArrivalInv(ApplyTakeRequest(s))
  {
    var r := s.transport[0].message.read;
    PopInOrder(s.transport, s.stages, s.stages);
    OtherFateHeard(s.received, Some(r), Dropped);
    OtherFateHeard(s.received, Some(r), Routed(s.nextOrdinal));
    hide OpenedFirst, AnnouncedAreQueued, NoneUnheard, SetFate, Enabled;
  }

  lemma RemoveRoutesArrives(s: State)
    requires ArrivalInv(s) && Enabled(s, RemoveRoutes)
    ensures ArrivalInv(ApplyRemoveRoutes(s))
  {
    assert NoneUnheard(VanishRoutesOf(s.received, s.processor.conn));
    hide OpenedFirst, AnnouncedAreQueued, NoneUnheard, Enabled;
  }

  lemma ProcessorArrives(s: State, step: Step)
    requires ArrivalInv(s) && RegistrationInv(s) && Enabled(s, step)
    requires !step.IsConnectionStep() && !step.IsRouterStep() && !step.Emit? && !step.HandlerSent?
    ensures ArrivalInv(ApplyProcessor(s, step))
  {
    hide OpenedFirst, AnnouncedAreQueued, NoneUnheard, RegistrationInv;
    hide ApplySendOpened, ApplyTakeRequest, ApplyRemoveRoutes, WithoutListenersOf;
    if step.TakeOpened? {
      TakeOpenedArrives(s);
    } else if step.SendOpened? {
      SendOpenedArrives(s);
    } else if step.TakeRequest? {
      TakeRequestArrives(s);
    } else if step.RemoveRoutes? {
      RemoveRoutesArrives(s);
    } else if step.TakeOther? || step.TakeClosed? {
      PopInOrder(s.transport, s.stages, s.stages);
    }
  }

  lemma StepArrives(s: State, step: Step)
    requires ArrivalInv(s) && RegistrationInv(s) && Enabled(s, step)
    ensures ArrivalInv(Apply(s, step))
  {
    hide OpenedFirst, AnnouncedAreQueued, NoneUnheard, RegistrationInv, ApplyConnection, ApplyRouter, ApplyProcessor;
    if step.IsConnectionStep() {
      ConnectionArrives(s, step);
    } else if step.IsRouterStep() {
      RouterArrives(s, step);
    } else if !step.Emit? && !step.HandlerSent? {
      ProcessorArrives(s, step);
    }
  }

  lemma {:induction false} ArrivalAlongRun(states: seq<State>, steps: seq<Step>, i: nat)
    requires IsRun(states, steps) && i < |states|
    ensures ArrivalInv(states[i])
  {
    hide Apply, Enabled, RegistrationInv;
    if i > 0 {
      ArrivalAlongRun(states, steps, i - 1);
      LifecycleAlongRun(states, steps, i - 1);
      StepArrives(states[i - 1], steps[i - 1]);
    }
  }

  /** When the processor takes a request, it has opened the connection the
      request came from: only a request from a connection it has removed since
      can be one it does not know. */
  lemma TakenFromOpened(s: State)
    requires ArrivalInv(s) && RegistrationInv(s) && Enabled(s, TakeRequest)
    ensures WasOpened(s.stages, s.transport[0].conn)
  {
    var c := s.transport[0].conn;
    assert IsRequestEvent(s.transport[0]) && IsAnnouncedBefore(s.transport, s.stages, 0, c);
    assert !HasStage(s.stages, c, BeingOpened);
  }

  lemma RequestsComeAfterOpening(states: seq<State>, steps: seq<Step>, i: nat)
    requires IsRun(states, steps) && i < |steps| && steps[i] == TakeRequest
    ensures WasOpened(states[i].stages, states[i].transport[0].conn)
  {
    ArrivalAlongRun(states, steps, i);
    LifecycleAlongRun(states, steps, i);
    TakenFromOpened(states[i]);
  }
}
