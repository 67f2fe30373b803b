/** What the recorded end of a request means: an answered request has exactly
    one answer in its connection's log, a lost one was lost because the router
    no longer served the connection, a vanished one because the processor had
    forgotten it. */
module AppServerOutcomes {
  import opened Text
  import opened RequestRouting
  import opened AppServer
  import opened AppServerFrames
  import opened AppServerAnswers
  import opened AppServerLifecycle
  import opened AppServerSessions
  import opened AppServerArrival
  import AppServerAccounting
  import AppServerDelivery
  import AppServerDrain

  // --------------------------------------------- answered requests are logged

  ghost function LoggedSet(answers: seq<Answer>): set<nat> {
    set k | 0 <= k < |answers| :: answers[k].read
  }

  ghost predicate AnsweredAreLogged(received: seq<Received>, answers: seq<Answer>) {
    forall r: nat | r < |received| && WasAnswered(received[r].fate) :: r in LoggedSet(answers)
  }

  ghost predicate IsLogged(s: State) {
    AnsweredAreLogged(s.received, s.answers)
  }

  lemma LogGrows(answers: seq<Answer>, a: Answer)
    ensures LoggedSet(answers + [a]) == LoggedSet(answers) + {a.read}
  {
    var longer := answers + [a];
    assert forall k | 0 <= k < |answers| :: longer[k] == answers[k];
    assert longer[|answers|] == a;
  }

  /** A request read is answered at once or not at all. */
  lemma OneMoreLogged(received: seq<Received>, answers: seq<Answer>, c: ConnectionId, id: RequestId)
    requires AnsweredAreLogged(received, answers)
    ensures AnsweredAreLogged(received + [Received(c, id, Refused(true))], answers + [Answer(c, id, |received|)])
    ensures forall fate | !WasAnswered(fate) :: AnsweredAreLogged(received + [Received(c, id, fate)], answers)
  {
    LogGrows(answers, Answer(c, id, |received|));
    hide LoggedSet;
  }

  lemma ReadLogged(s: State, c: ConnectionId, id: RequestId)
    requires AnsweredAreLogged(s.received, s.answers) && Enabled(s, ReadRequest(c, id))
    ensures IsLogged(ApplyReadRequest(s, c, id))
  {
    OneMoreLogged(s.received, s.answers, c, id);
    assert !WasAnswered(Queued) && !WasAnswered(Unheard) && !WasAnswered(Refused(false));
    hide AnsweredAreLogged;
    assert IsLogged(EnqueueRequest(s, c, id)) && IsLogged(RefuseRequest(s, c, id));
    assert forall fate, stop | !WasAnswered(fate) :: IsLogged(LoseRequest(s, c, id, fate, stop));
    hide IsLogged, EnqueueRequest, RefuseRequest, LoseRequest, Enabled;
  }

  lemma ConnectionLogged(s: State, step: Step)
    requires AnsweredAreLogged(s.received, s.answers) && Enabled(s, step) && step.IsConnectionStep()
    ensures var t := ApplyConnection(s, step);
            AnsweredAreLogged(t.received, t.answers)
  {
    hide ApplyReadRequest, AnsweredAreLogged;
    if step.ReadRequest? {
      ReadLogged(s, step.conn, step.id);
    }
  }

  lemma DeliverLogged(s: State)
    requires AnsweredAreLogged(s.received, s.answers) && RouterHolds(s.router, s.received)
    requires s.router.Delivering? && s.router.targets != [] && s.router.targets[0] in s.writers
    ensures var t := DeliverTo(s, s.router.targets[0]);
            AnsweredAreLogged(t.received, t.answers)
  {
    if s.router.origin.Some? {
      LogGrows(s.answers, Answer(s.router.targets[0], s.router.message.id, s.router.origin.value));
    }
  }

  /** Fates that stand for no answer come and go without the log. */
  lemma OtherFateLogged(received: seq<Received>, origin: Option<nat>, fate: Fate, answers: seq<Answer>)
    requires AnsweredAreLogged(received, answers) && !WasAnswered(fate)
    ensures AnsweredAreLogged(SetFateOf(received, origin, fate), answers)
  {
  }

  lemma RouterDeliverLogged(s: State)
    requires AnsweredAreLogged(s.received, s.answers) && RouterHolds(s.router, s.received) && Enabled(s, RouterDeliver)
    ensures IsLogged(ApplyRouterDeliver(s))
  {
    var c := s.router.targets[0];
    OtherFateLogged(s.received, s.router.origin, Lost, s.answers);
    assert IsLogged(SkipTarget(s)) && IsLogged(DisconnectTarget(s, c));
    if c in s.writers {
      DeliverLogged(s);
      assert IsLogged(DeliverTo(s, c));
    }
    hide IsLogged, RouterHolds, DeliverTo, SkipTarget, DisconnectTarget, Enabled;
  }

  lemma RouterLogged(s: State, step: Step)
    requires AnsweredAreLogged(s.received, s.answers) && RouterHolds(s.router, s.received)
    requires Enabled(s, step) && step.IsRouterStep()
    ensures AnsweredAreLogged(ApplyRouter(s, step).received, ApplyRouter(s, step).answers)
  {
    hide AnsweredAreLogged, RouterHolds, Rewrite, SetFateOf, ApplyRouterDeliver;
    if step.RouterDeliver? {
      RouterDeliverLogged(s);
    } else if step.RouterTake? {
      OtherFateLogged(s.received, OriginOf(s, s.outgoing[0]), InFlight, s.answers);
    } else if step.RouterTargets? {
      OtherFateLogged(s.received, s.router.origin, Lost, s.answers);
    }
  }

  lemma TakeRequestLogged(s: State)
    requires AnsweredAreLogged(s.received, s.answers) && Enabled(s, TakeRequest)
    ensures AnsweredAreLogged(ApplyTakeRequest(s).received, ApplyTakeRequest(s).answers)
  {
    var r := s.transport[0].message.read;
    OtherFateLogged(s.received, Some(r), Routed(s.nextOrdinal), s.answers);
    OtherFateLogged(s.received, Some(r), Dropped, s.answers);
    hide AnsweredAreLogged, SetFate, Enabled;
  }

  lemma VanishLogged(s: State, c: ConnectionId)
    requires AnsweredAreLogged(s.received, s.answers)
    ensures AnsweredAreLogged(VanishRoutesOf(s.received, c), s.answers)
  {
  }

  lemma ProcessorLogged(s: State, step: Step)
    requires AnsweredAreLogged(s.received, s.answers) && Enabled(s, step)
    requires !step.IsConnectionStep() && !step.IsRouterStep() && !step.Emit? && !step.HandlerSent?
    ensures var t := ApplyProcessor(s, step);
            AnsweredAreLogged(t.received, t.answers)
  {
    hide AnsweredAreLogged, ApplyTakeRequest, VanishRoutesOf;
    if step.TakeRequest? {
      TakeRequestLogged(s);
    } else if step.RemoveRoutes? {
      VanishLogged(s, s.processor.conn);
    }
  }

  lemma StepLogged(s: State, step: Step)
    requires AnsweredAreLogged(s.received, s.answers) && AnswerInv(s) && Enabled(s, step)
    ensures AnsweredAreLogged(Apply(s, step).received, Apply(s, step).answers)
  {
    assert RouterHolds(s.router, s.received);
    hide AnsweredAreLogged, AnswerInv, RouterHolds, ApplyConnection, ApplyRouter, ApplyProcessor;
    if step.IsConnectionStep() {
      ConnectionLogged(s, step);
    } else if step.IsRouterStep() {
      RouterLogged(s, step);
    } else if !step.Emit? && !step.HandlerSent? {
      ProcessorLogged(s, step);
    }
  }

  lemma {:induction false} LoggedAlongRun(states: seq<State>, steps: seq<Step>, i: nat)
    requires IsRun(states, steps) && i < |states|
    ensures AnsweredAreLogged(states[i].received, states[i].answers)
  {
    if i > 0 {
      LoggedAlongRun(states, steps, i - 1);
      AlongRun(states, steps, i - 1);
      StepLogged(states[i - 1], steps[i - 1]);
    }
  }

  // --------------------------------------------- lost and vanished requests

  /** The router has served the connection. */
  predicate WasRegistered(stages: Stages, c: ConnectionId) {
    HasStage(stages, c, Registered) || HasStage(stages, c, Unregistered)
  }

  /** What is known of the connection of a request with some fate. */
  predicate FateFits(stages: Stages, known: set<ConnectionId>, q: Received) {
    match q.fate
    case Routed(_) => WasOpened(stages, q.conn)
    case InFlight => WasRegistered(stages, q.conn)
    case Lost => HasStage(stages, q.conn, Unregistered)
    case Vanished | Dropped => WasOpened(stages, q.conn) && q.conn !in known
    case _ => true
  }

  ghost predicate FatesFit(stages: Stages, known: set<ConnectionId>, received: seq<Received>) {
    forall r | 0 <= r < |received| :: FateFits(stages, known, received[r])
  }

  /** A connection the router is yet to register is announced to it. */
  ghost predicate ControlledAreQueued(stages: Stages, control: seq<ControlEvent>) {
    forall c | HasStage(stages, c, Controlled) :: Opened(c) in control
  }

  ghost predicate EndsInv(s: State) {
    && FatesFit(s.stages, s.connections.Keys, s.received)
    && ControlledAreQueued(s.stages, s.control)
    && (s.processor.RemovingRoutes? ==> s.processor.conn !in s.connections)
  }

  /** Stages only move forward. */
  ghost predicate Advances(a: Stages, b: Stages) {
    && (forall c | WasOpened(a, c) :: WasOpened(b, c))
    && (forall c | WasRegistered(a, c) :: WasRegistered(b, c))
    && (forall c | HasStage(a, c, Unregistered) :: HasStage(b, c, Unregistered))
  }

  lemma FatesStay(a: Stages, b: Stages, known: set<ConnectionId>, now: set<ConnectionId>, received: seq<Received>)
    requires FatesFit(a, known, received) && Advances(a, b)
    requires forall c | c in now && c !in known :: !WasOpened(a, c)
    ensures FatesFit(b, now, received)
  {
    forall r | 0 <= r < |received|
      ensures FateFits(b, now, received[r])
    {
      assert FateFits(a, known, received[r]);
    }
  }

  lemma SetFateFits(stages: Stages, known: set<ConnectionId>, received: seq<Received>, r: nat, fate: Fate)
    requires FatesFit(stages, known, received) && r < |received|
    requires FateFits(stages, known, received[r].(fate := fate))
    ensures FatesFit(stages, known, SetFate(received, r, fate))
  {
    hide FateFits;
  }

  lemma OneMoreFits(stages: Stages, known: set<ConnectionId>, received: seq<Received>, q: Received)
    requires FatesFit(stages, known, received) && FateFits(stages, known, q)
    ensures FatesFit(stages, known, received + [q])
  {
    hide FateFits;
  }

  /** Steps that leave the fates alone and only move stages forward. */
  lemma OnlyStagesMove(s: State, t: State)
    requires EndsInv(s) && t.received == s.received && t.connections.Keys == s.connections.Keys
    requires Advances(s.stages, t.stages) && ControlledAreQueued(t.stages, t.control)
    requires t.processor.RemovingRoutes? ==> t.processor == s.processor
    ensures EndsInv(t)
  {
    FatesStay(s.stages, t.stages, s.connections.Keys, t.connections.Keys, s.received);
    hide FatesFit, ControlledAreQueued, Advances;
  }

  lemma ReadEnds(s: State, c: ConnectionId, id: RequestId)
    requires EndsInv(s) && Enabled(s, ReadRequest(c, id))
    ensures EndsInv(ApplyReadRequest(s, c, id))
  {
    var known := s.connections.Keys;
    OneMoreFits(s.stages, known, s.received, Received(c, id, Queued));
    OneMoreFits(s.stages, known, s.received, Received(c, id, Unheard));
    OneMoreFits(s.stages, known, s.received, Received(c, id, Refused(true)));
    OneMoreFits(s.stages, known, s.received, Received(c, id, Refused(false)));
    hide FatesFit, ControlledAreQueued;
    assert EndsInv(EnqueueRequest(s, c, id)) && EndsInv(RefuseRequest(s, c, id));
    assert forall stop :: EndsInv(LoseRequest(s, c, id, Unheard, stop));
    assert forall stop :: EndsInv(LoseRequest(s, c, id, Refused(false), stop));
    hide EndsInv, EnqueueRequest, RefuseRequest, LoseRequest;
  }

  lemma NewStage(stages: Stages, c: ConnectionId, stage: Stage)
    requires !WasOpened(stages, c) && !stage.Controlled?
    ensures Advances(stages, stages[c := stage])
    ensures forall d | HasStage(stages[c := stage], d, Controlled) :: HasStage(stages, d, Controlled)
  {
  }

  lemma ConnectionEnds(s: State, step: Step)
    requires EndsInv(s) && RegistrationInv(s) && Enabled(s, step) && step.IsConnectionStep()
    ensures EndsInv(ApplyConnection(s, step))
  {
    hide EndsInv, RegistrationInv, ApplyReadRequest;
    if step.ReadRequest? {
      ReadEnds(s, step.conn, step.id);
    } else if step.Accept? || step.Announce? {
      NewConnectionEnds(s, step);
    } else {
      QuietConnectionEnds(s, step);
    }
  }

  lemma NewConnectionEnds(s: State, step: Step)
    requires EndsInv(s) && RegistrationInv(s) && Enabled(s, step) && (step.Accept? || step.Announce?)
    ensures EndsInv(ApplyConnection(s, step))
  {
    assert SameConnections(s);
    if step.Accept? {
      NewStage(s.stages, s.nextConnectionId, Unannounced);
    } else {
      NewStage(s.stages, step.conn, Announced);
    }
    hide FatesFit, RegistrationInv;
    OnlyStagesMove(s, ApplyConnection(s, step));
  }

  lemma QuietConnectionEnds(s: State, step: Step)
    requires EndsInv(s) && Enabled(s, step) && step.IsConnectionStep()
    requires !step.ReadRequest? && !step.Accept? && !step.Announce?
    ensures EndsInv(ApplyConnection(s, step))
  {
    hide FatesFit;
    OnlyStagesMove(s, ApplyConnection(s, step));
  }

  // ----------------------------------------------------- steps of the router

  lemma RouterControlEnds(s: State)
    requires EndsInv(s) && RegistrationInv(s) && Enabled(s, RouterControl)
    ensures EndsInv(ApplyRouterControl(s))
  {
    var t, c := ApplyRouterControl(s), s.control[0].conn;
    assert ControlledOnce(s.control, s.stages) && OutboundIsRegistered(s.outbound, s.stages);
    assert s.control[0].Opened? ==> HasStage(s.stages, c, Controlled);
    assert c in s.outbound ==> HasStage(s.stages, c, Registered);
    assert Advances(s.stages, t.stages);
    forall d | HasStage(t.stages, d, Controlled)
      ensures Opened(d) in t.control
    {
      assert Opened(d) in s.control && Opened(d) != s.control[0];
    }
    hide RegistrationInv, ControlledOnce, OutboundIsRegistered;
    OnlyStagesMove(s, t);
  }

  /** The request whose route the router takes was accepted from a connection
      it has registered: control events come first. */
  lemma TakenWasRegistered(s: State, id: RequestId)
    requires EndsInv(s) && RoutesBelong(s.routes, s.accepted, s.received) && s.control == [] && id in s.routes
    ensures s.routes[id].read < |s.received|
    ensures WasRegistered(s.stages, s.received[s.routes[id].read].conn)
  {
    assert RouteBelongs(id, s.routes[id], s.accepted, s.received);
    var q := s.received[s.routes[id].read];
    assert FateFits(s.stages, s.connections.Keys, q);
    assert HasStage(s.stages, q.conn, Controlled) ==> Opened(q.conn) in s.control;
  }

  lemma RouterTakeEnds(s: State)
    requires EndsInv(s) && AnswerInv(s) && Enabled(s, RouterTake)
    ensures EndsInv(ApplyRouterTake(s))
  {
    var origin := OriginOf(s, s.outgoing[0]);
    if origin.Some? {
      TakenWasRegistered(s, s.outgoing[0].message.id);
      SetFateFits(s.stages, s.connections.Keys, s.received, origin.value, InFlight);
    }
    hide FatesFit, ControlledAreQueued, AnswerInv, Rewrite, Enabled;
  }

  /** The connection of a request in the router's hands, once unregistered. */
  lemma UnregisteredEnds(s: State, r: nat, stages: Stages)
    requires EndsInv(s) && OutboundIsRegistered(s.outbound, s.stages) && Advances(s.stages, stages)
    requires r < |s.received| && s.received[r].fate.InFlight?
    requires s.received[r].conn in s.outbound ==> HasStage(stages, s.received[r].conn, Unregistered)
    ensures FatesFit(stages, s.connections.Keys, SetFate(s.received, r, Lost))
  {
    var q, known := s.received[r], s.connections.Keys;
    assert FateFits(s.stages, known, q);
    assert q.conn !in s.outbound ==> !HasStage(s.stages, q.conn, Registered);
    FatesStay(s.stages, stages, known, known, s.received);
    SetFateFits(stages, known, s.received, r, Lost);
  }

  lemma RouterTargetsEnds(s: State, order: seq<ConnectionId>)
    requires EndsInv(s) && RouterHolds(s.router, s.received) && OutboundIsRegistered(s.outbound, s.stages)
    requires Enabled(s, RouterTargets(order))
    ensures EndsInv(ApplyRouterTargets(s, order))
  {
    var origin := s.router.origin;
    if origin.Some? && order == [] {
      var c := s.router.envelope.conn;
      assert c !in Targets(s, s.router.envelope);
      UnregisteredEnds(s, origin.value, s.stages);
    }
    hide FatesFit, ControlledAreQueued, RouterHolds, OutboundIsRegistered, Enumerates, Enabled;
  }

  lemma DeliverToEnds(s: State)
    requires EndsInv(s) && RouterHolds(s.router, s.received)
    requires s.router.Delivering? && s.router.targets != [] && s.router.targets[0] in s.writers
    ensures EndsInv(DeliverTo(s, s.router.targets[0]))
  {
    if s.router.origin.Some? {
      SetFateFits(s.stages, s.connections.Keys, s.received, s.router.origin.value, Answered);
    }
    hide FatesFit, ControlledAreQueued, RouterHolds;
  }

  lemma SkipTargetEnds(s: State)
    requires EndsInv(s) && RouterHolds(s.router, s.received) && OutboundIsRegistered(s.outbound, s.stages)
    requires s.router.Delivering? && s.router.targets != [] && s.router.targets[0] !in s.outbound
    ensures EndsInv(SkipTarget(s))
  {
    if s.router.origin.Some? {
      UnregisteredEnds(s, s.router.origin.value, s.stages);
    }
    hide FatesFit, ControlledAreQueued, RouterHolds, OutboundIsRegistered;
  }

  lemma DisconnectTargetEnds(s: State)
    requires EndsInv(s) && RouterHolds(s.router, s.received) && OutboundIsRegistered(s.outbound, s.stages)
    requires s.router.Delivering? && s.router.targets != [] && s.router.targets[0] in s.outbound
    ensures EndsInv(DisconnectTarget(s, s.router.targets[0]))
  {
    var c := s.router.targets[0];
    var stages := s.stages[c := Unregistered];
    assert HasStage(s.stages, c, Registered);
    FatesStay(s.stages, stages, s.connections.Keys, s.connections.Keys, s.received);
    if s.router.origin.Some? {
      UnregisteredEnds(s, s.router.origin.value, stages);
    }
    assert ControlledAreQueued(stages, s.control);
    hide FatesFit, ControlledAreQueued, RouterHolds, OutboundIsRegistered;
  }

  lemma RouterDeliverEnds(s: State)
    requires EndsInv(s) && RouterHolds(s.router, s.received) && OutboundIsRegistered(s.outbound, s.stages)
    requires Enabled(s, RouterDeliver)
    ensures EndsInv(ApplyRouterDeliver(s))
  {
    var c := s.router.targets[0];
    if c !in s.outbound {
      SkipTargetEnds(s);
    } else {
      DisconnectTargetEnds(s);
      if c in s.writers {
        DeliverToEnds(s);
      }
    }
    hide EndsInv, RouterHolds, OutboundIsRegistered, SkipTarget, DeliverTo, DisconnectTarget, Enabled;
  }

  lemma RouterEnds(s: State, step: Step)
    requires EndsInv(s) && RegistrationInv(s) && AnswerInv(s) && Enabled(s, step) && step.IsRouterStep()
    ensures EndsInv(ApplyRouter(s, step))
  {
    assert RouterHolds(s.router, s.received) && OutboundIsRegistered(s.outbound, s.stages);
    hide FatesFit, ControlledAreQueued, RegistrationInv, AnswerInv, RouterHolds, OutboundIsRegistered, Enabled;
    hide ApplyRouterControl, ApplyRouterTake, ApplyRouterTargets, ApplyRouterDeliver;
    if step.RouterControl? {
      RouterControlEnds(s);
    } else if step.RouterTake? {
      RouterTakeEnds(s);
    } else if step.RouterTargets? {
      RouterTargetsEnds(s, step.order);
    } else if step.RouterDeliver? {
      RouterDeliverEnds(s);
    }
  }

  // -------------------------------------------------- steps of the processor

  lemma TakeOpenedEnds(s: State)
    requires EndsInv(s) && RegistrationInv(s) && Enabled(s, TakeOpened)
    ensures EndsInv(ApplyProcessor(s, TakeOpened))
  {
    var c := s.transport[0].conn;
    assert AnnouncedOnce(s.transport, s.stages) && HasStage(s.stages, c, Announced);
    NewStage(s.stages, c, BeingOpened);
    hide RegistrationInv, FatesFit;
    OnlyStagesMove(s, ApplyProcessor(s, TakeOpened));
  }

  lemma SendOpenedEnds(s: State)
    requires EndsInv(s) && RegistrationInv(s) && Enabled(s, SendOpened)
    ensures EndsInv(ApplySendOpened(s))
  {
    var t, c := ApplySendOpened(s), s.processor.conn;
    assert HasStage(s.stages, c, BeingOpened);
    assert Advances(s.stages, t.stages);
    FatesStay(s.stages, t.stages, s.connections.Keys, t.connections.Keys, s.received);
    forall d | HasStage(t.stages, d, Controlled)
      ensures Opened(d) in t.control
    {
      assert d != c ==> Opened(d) in s.control;
      assert t.control[|s.control|] == Opened(c);
    }
  }

  lemma TakeRequestEnds(s: State)
    requires EndsInv(s) && QueuedRequests(s.transport, s.received) && Enabled(s, TakeRequest)
    requires WasOpened(s.stages, s.transport[0].conn)
    ensures EndsInv(ApplyTakeRequest(s))
  {
    var c, r, known := s.transport[0].conn, s.transport[0].message.read, s.connections.Keys;
    assert EventBelongs(s.transport[0], s.received);
    SetFateFits(s.stages, known, s.received, r, if c in s.connections then Routed(s.nextOrdinal) else Dropped);
    hide QueuedRequests, FatesFit, ControlledAreQueued, Enabled;
  }

  lemma VanishEnds(s: State, c: ConnectionId)
    requires FatesFit(s.stages, s.connections.Keys, s.received) && c !in s.connections
    ensures FatesFit(s.stages, s.connections.Keys, VanishRoutesOf(s.received, c))
  {
    forall r | 0 <= r < |s.received|
      ensures FateFits(s.stages, s.connections.Keys, VanishRoutesOf(s.received, c)[r])
    {
      assert FateFits(s.stages, s.connections.Keys, s.received[r]);
    }
  }

  lemma RemoveRoutesEnds(s: State)
    requires EndsInv(s) && Enabled(s, RemoveRoutes)
    ensures EndsInv(ApplyRemoveRoutes(s))
  {
    VanishEnds(s, s.processor.conn);
    hide FatesFit, ControlledAreQueued, Enabled;
  }

  lemma RemoveConnectionEnds(s: State)
    requires EndsInv(s) && Enabled(s, RemoveConnection)
    ensures EndsInv(ApplyProcessor(s, RemoveConnection))
  {
    var t := ApplyProcessor(s, RemoveConnection);
    FatesStay(s.stages, s.stages, s.connections.Keys, t.connections.Keys, s.received);
    hide FatesFit, ControlledAreQueued, Enabled;
  }

  lemma SessionEnds(s: State, step: Step)
    requires EndsInv(s) && Enabled(s, step) && (step.SetOptOut? || step.MarkInitialized?)
    ensures EndsInv(ApplyProcessor(s, step))
  {
    var t := ApplyProcessor(s, step);
    UpdateKeepsKeys(s.connections, s.processor.conn, t.connections[s.processor.conn]);
    hide FatesFit, ControlledAreQueued, Enabled;
  }

  lemma OtherProcessorEnds(s: State, step: Step)
    requires EndsInv(s) && Enabled(s, step)
    requires step.PublishInitialized? || step.AddListener? || step.RemoveListener? || step.HandlerSends?
          || step.HandlerSendFails? || step.FinishRequest? || step.TakeOther? || step.TakeClosed?
          || step.RoutesDrained? || step.SendClosed? || step.RouterGone?
    ensures EndsInv(ApplyProcessor(s, step))
  {
    if step.SendClosed? {
      var t := ApplyProcessor(s, step);
      assert forall d | Opened(d) in s.control :: Opened(d) in t.control;
    }
    hide FatesFit, Enabled;
  }

  lemma ProcessorEnds(s: State, step: Step)
    requires EndsInv(s) && LifecycleInv(s) && ArrivalInv(s) && AnswerInv(s) && Enabled(s, step)
    requires !step.IsConnectionStep() && !step.IsRouterStep() && !step.Emit? && !step.HandlerSent?
    ensures EndsInv(ApplyProcessor(s, step))
  {
    assert QueuedRequests(s.transport, s.received);
    hide EndsInv, SessionInv, RegistrationInv, ArrivalInv, AnswerInv, QueuedRequests;
    hide ApplySendOpened, ApplyTakeRequest, ApplyRemoveRoutes, ApplyTakeClosed;
    if step.TakeOpened? {
      TakeOpenedEnds(s);
    } else if step.SendOpened? {
      SendOpenedEnds(s);
    } else if step.TakeRequest? {
      TakenFromOpened(s);
      TakeRequestEnds(s);
    } else if step.RemoveRoutes? {
      RemoveRoutesEnds(s);
    } else if step.RemoveConnection? {
      RemoveConnectionEnds(s);
    } else if step.SetOptOut? || step.MarkInitialized? {
      SessionEnds(s, step);
    } else {
      OtherProcessorEnds(s, step);
    }
  }

  lemma StepEnds(s: State, step: Step)
    requires EndsInv(s) && LifecycleInv(s) && ArrivalInv(s) && AnswerInv(s) && Enabled(s, step)
    ensures EndsInv(Apply(s, step))
  {
    hide SessionInv, RegistrationInv, ArrivalInv, AnswerInv, ApplyConnection, ApplyRouter, ApplyProcessor;
    if step.IsConnectionStep() {
      hide EndsInv;
      ConnectionEnds(s, step);
    } else if step.IsRouterStep() {
      hide EndsInv;
      RouterEnds(s, step);
    } else if !step.Emit? && !step.HandlerSent? {
      hide EndsInv;
      ProcessorEnds(s, step);
    }
  }

  lemma StartHasEnds(s: State)
    requires Init(s)
    ensures EndsInv(s)
  {
  }

  lemma {:induction false} EndsAlongRun(states: seq<State>, steps: seq<Step>, i: nat)
    requires IsRun(states, steps) && i < |states|
    ensures EndsInv(states[i]) && RegistrationInv(states[i]) && AnswerInv(states[i])
  {
    hide EndsInv, RegistrationInv, SessionInv, ArrivalInv, AnswerInv, Apply, Enabled, Init;
    LifecycleAlongRun(states, steps, i);
    AlongRun(states, steps, i);
    if i == 0 {
      StartHasEnds(states[0]);
    } else {
      StepOfRun(states, steps, i - 1);
      AlongRun(states, steps, i - 1);
      EndsAlongRun(states, steps, i - 1);
      LifecycleAlongRun(states, steps, i - 1);
      ArrivalAlongRun(states, steps, i - 1);
      StepEnds(states[i - 1], steps[i - 1]);
    }
  }

  // ---------------------------------------------------------------- theorems

  /** The only entry of the log for request `r`. */
  ghost predicate OnlyEntry(answers: seq<Answer>, k: nat, r: nat) {
    && k < |answers| && answers[k].read == r
    && forall l | 0 <= l < |answers| && l != k :: answers[l].read != r
  }

  ghost predicate NotLogged(answers: seq<Answer>, r: nat) {
    forall k | 0 <= k < |answers| :: answers[k].read != r
  }

  /** Conservation: every request a connection task ever read is waiting in
      the transport channel, has a route, is in the router's hands, has exactly
      one answer in the log of its own connection under its own id, or has none
      and met one of the listed ends: a lost one's connection is no longer served
      by the router, a vanished or dropped one's is no longer known to the
      processor, an unheard one came after the processor had exited, a refused
      one found the channel full and had no room for the overload error. */
  lemma EveryRequestIsAccountedFor(states: seq<State>, steps: seq<Step>, i: nat, r: nat)
    requires IsRun(states, steps) && i < |states| && r < |states[i].received|
    ensures var s, q := states[i], states[i].received[r];
            && (WasAnswered(q.fate) ==>
                  exists k: nat :: OnlyEntry(s.answers, k, r) && s.answers[k] == Answer(q.conn, q.id, r))
            && (!WasAnswered(q.fate) ==> NotLogged(s.answers, r))
            && match q.fate
               case Queued => IncomingMessage(q.conn, InRequest(q.id, r)) in s.transport
               case Routed(n) =>
                 InternalId(q.conn, n) in s.routes && s.routes[InternalId(q.conn, n)] == Route(q.conn, q.id, r)
               case InFlight => AppServerAccounting.Holds(s.router, r)
               case Lost => q.conn !in s.outbound
               case Vanished | Dropped => q.conn !in s.connections
               case Unheard => s.processor.ProcessorExited?
               case Answered | Refused(_) => true
  {
    WhereItIs(states, steps, i, r);
    WhatWasLogged(states, steps, i, r);
    EndsAlongRun(states, steps, i);
    ArrivalAlongRun(states, steps, i);
    var s, q := states[i], states[i].received[r];
    assert q.fate.Unheard? ==> s.processor.ProcessorExited?;
    assert FateFits(s.stages, s.connections.Keys, q);
    assert q.conn in s.outbound <==> HasStage(s.stages, q.conn, Registered);
    hide IsRun, AnswerInv;
  }

  lemma WhatWasLogged(states: seq<State>, steps: seq<Step>, i: nat, r: nat)
    requires IsRun(states, steps) && i < |states| && r < |states[i].received|
    ensures var s, q := states[i], states[i].received[r];
            && (WasAnswered(q.fate) ==>
                  exists k: nat :: OnlyEntry(s.answers, k, r) && s.answers[k] == Answer(q.conn, q.id, r))
            && (!WasAnswered(q.fate) ==> NotLogged(s.answers, r))
  {
    AlongRun(states, steps, i);
    LoggedAlongRun(states, steps, i);
    var s, q := states[i], states[i].received[r];
    assert AnswersMatch(s.answers, s.received);
    hide IsRun, AnswerInv;
    assert forall k | 0 <= k < |s.answers| :: AnswerMatches(s.answers[k], s.received);
    if WasAnswered(q.fate) {
      var k: nat :| k < |s.answers| && s.answers[k].read == r;
      assert OnlyEntry(s.answers, k, r);
    }
  }

  lemma WhereItIs(states: seq<State>, steps: seq<Step>, i: nat, r: nat)
    requires IsRun(states, steps) && i < |states| && r < |states[i].received|
    ensures var s, q := states[i], states[i].received[r];
            match q.fate
            case Queued => IncomingMessage(q.conn, InRequest(q.id, r)) in s.transport
            case Routed(n) =>
              InternalId(q.conn, n) in s.routes && s.routes[InternalId(q.conn, n)] == Route(q.conn, q.id, r)
            case InFlight => AppServerAccounting.Holds(s.router, r)
            case _ => true
  {
    AppServerAccounting.AccountsAlongRun(states, steps, i);
    var s, q := states[i], states[i].received[r];
    if q.fate.Queued? {
      assert AppServerAccounting.RequestEvent(s.received, r) in s.transport;
    }
    if q.fate.Routed? {
      assert AppServerAccounting.HasItsRoute(s.routes, s.received, r);
      var k := InternalId(q.conn, q.fate.ordinal);
      assert RouteBelongs(k, s.routes[k], s.accepted, s.received);
    }
  }

  /** The requests from `c` with id `id` that were answered, by a handler or by
      an overload error. */
  ghost function AnsweredFrom(received: seq<Received>, c: ConnectionId, id: RequestId): set<nat> {
    set r: nat | r < |received| && received[r].conn == c && received[r].id == id && WasAnswered(received[r].fate)
  }

  lemma {:induction false} LoggedReadsInclude(answers: seq<Answer>, c: ConnectionId, id: RequestId, k: nat)
    requires k < |answers| && answers[k].conn == c && answers[k].id == id
    ensures answers[k].read in AppServerDelivery.LoggedReads(answers, c, id)
  {
    var n := |answers| - 1;
    if k < n {
      LoggedReadsInclude(answers[..n], c, id, k);
    }
  }

  lemma LoggedAreAnswered(received: seq<Received>, answers: seq<Answer>, c: ConnectionId, id: RequestId)
    requires AnswersMatch(answers, received)
    ensures AppServerDelivery.LoggedReads(answers, c, id) <= AnsweredFrom(received, c, id)
  {
    forall r | r in AppServerDelivery.LoggedReads(answers, c, id)
      ensures r in AnsweredFrom(received, c, id)
    {
      var k := AppServerDelivery.LoggedReadsAreLogged(answers, c, id, r);
      assert AnswerMatches(answers[k], received);
    }
  }

  lemma AnsweredAreLoggedReads(states: seq<State>, steps: seq<Step>, i: nat, c: ConnectionId, id: RequestId)
    requires IsRun(states, steps) && i < |states|
    ensures AnsweredFrom(states[i].received, c, id) <= AppServerDelivery.LoggedReads(states[i].answers, c, id)
  {
    var answers, received := states[i].answers, states[i].received;
    hide IsRun, OnlyEntry, AppServerDelivery.LoggedReads;
    forall r: nat | r < |received| && received[r].conn == c && received[r].id == id && WasAnswered(received[r].fate)
      ensures r in AppServerDelivery.LoggedReads(answers, c, id)
    {
      WhatWasLogged(states, steps, i, r);
      var k: nat :| OnlyEntry(answers, k, r) && answers[k] == Answer(c, id, r);
      LoggedReadsInclude(answers, c, id, k);
    }
  }

  /** In every state of every run, for every connection and id: the writer was
      given exactly as many answers with that id as there are requests with that
      id from that connection that were answered; so never more than requests,
      whatever ids other clients chose and however often handlers answer. */
  lemma AnswersSentAreRequestsAnswered(states: seq<State>, steps: seq<Step>, i: nat, c: ConnectionId, id: RequestId)
    requires IsRun(states, steps) && i < |states| && c in states[i].writers
    ensures var s := states[i];
            && multiset(AppServerDelivery.AnswerIds(s.writers[c].Sent()))[id] == |AnsweredFrom(s.received, c, id)|
            && |AnsweredFrom(s.received, c, id)| <= |AppServerDelivery.RequestsFrom(s.received, c, id)|
  {
    var answers, received := states[i].answers, states[i].received;
    AppServerDelivery.LogAlongRun(states, steps, i);
    assert AnswersMatch(answers, received);
    var sent := AppServerDelivery.AnswerIds(states[i].writers[c].Sent());
    assert sent == AppServerDelivery.LoggedIds(answers, c);
    assert AnsweredFrom(received, c, id) <= AppServerDelivery.RequestsFrom(received, c, id);
    assert forall k, l | 0 <= k < l < |answers| :: answers[k].read != answers[l].read;
    hide IsRun, AnswerInv, AnswersMatch, AnsweredFrom, AppServerDelivery.LoggedReads;
    LoggedAreAnswered(received, answers, c, id);
    AnsweredAreLoggedReads(states, steps, i, c, id);
    assert AppServerDelivery.LoggedReads(answers, c, id) == AnsweredFrom(received, c, id);
    AppServerDelivery.LoggedReadsCount(answers, c, id);
    AppServerDelivery.Subcardinality(AnsweredFrom(received, c, id), AppServerDelivery.RequestsFrom(received, c, id));
  }

  /** The requests from `c` with id `id` refused without an overload error. */
  ghost function RefusedUntold(received: seq<Received>, c: ConnectionId, id: RequestId): set<nat> {
    set r: nat | r < |received| && received[r].conn == c && received[r].id == id && received[r].fate == Refused(false)
  }

  /** When the router comes to the Closed event of the stdio connection and the
      writer still works, the writer has been given, for every id, an answer to
      each request with that id that was ever read, except those refused while
      even the overload error found no room. */
  lemma StdioHasItsAnswersBeforeClose(states: seq<State>, steps: seq<Step>, i: nat, id: RequestId)
    requires IsRun(states, steps) && i < |steps| && states[0].mode.Stdio?
    requires steps[i] == RouterControl && states[i].control[0] == Closed(AppServerDrain.STDIO)
    requires AppServerDrain.STDIO in states[i].writers && states[i].writers[AppServerDrain.STDIO].open
    ensures var s, c := states[i], AppServerDrain.STDIO;
            multiset(AppServerDelivery.AnswerIds(s.writers[c].Sent()))[id] + |RefusedUntold(s.received, c, id)|
            == |AppServerDelivery.RequestsFrom(s.received, c, id)|
  {
    var s, c := states[i], AppServerDrain.STDIO;
    AppServerDrain.StdioIsDrainedBeforeClose(states, steps, i);
    AnswersSentAreRequestsAnswered(states, steps, i, c, id);
    var answered, untold := AnsweredFrom(s.received, c, id), RefusedUntold(s.received, c, id);
    assert AppServerDelivery.RequestsFrom(s.received, c, id) == answered + untold;
    assert answered !! untold;
  }
}
