/** Answers go back to the request they belong to: in every run each answer a
    connection receives carries the id of a request read from that same
    connection, and no request is answered twice. */
module AppServerAnswers {
  import opened Text
  import opened RequestRouting
  import opened AppServer

  // -------------------------------------------------------------- invariant

  predicate IsRequestEvent(e: TransportEvent) {
    e.IncomingMessage? && e.message.InRequest?
  }

  ghost predicate EventBelongs(e: TransportEvent, received: seq<Received>) {
    IsRequestEvent(e) ==>
      && e.message.read < |received|
      && received[e.message.read] == Received(e.conn, e.message.id, Queued)
  }

  /** Every queued request event stands for one request that is still queued. */
  ghost predicate QueuedRequests(transport: seq<TransportEvent>, received: seq<Received>) {
    && (forall i | 0 <= i < |transport| :: EventBelongs(transport[i], received))
    && (forall i, j | 0 <= i < j < |transport| && IsRequestEvent(transport[i]) && IsRequestEvent(transport[j]) ::
          transport[i].message.read != transport[j].message.read)
  }

  ghost predicate RouteBelongs(k: RequestId, route: Route, accepted: seq<nat>, received: seq<Received>) {
    && route.read < |received|
    && received[route.read].conn == route.conn
    && received[route.read].id == route.original
    && received[route.read].fate.Routed?
    && var n := received[route.read].fate.ordinal;
       n < |accepted| && accepted[n] == route.read && k == InternalId(route.conn, n)
  }

  /** Every route belongs to one accepted, unanswered request. */
  ghost predicate RoutesBelong(routes: RouteTable, accepted: seq<nat>, received: seq<Received>) {
    && (forall n | 0 <= n < |accepted| :: accepted[n] < |received|)
    && (forall k | k in routes :: RouteBelongs(k, routes[k], accepted, received))
  }

  /** Answers are queued under internal ids, as broadcasts. */
  ghost predicate OutgoingAnswers(outgoing: seq<Envelope>) {
    forall i | 0 <= i < |outgoing| && outgoing[i].message.IsAnswer() ::
      outgoing[i].Broadcast? && IsInternalRequestId(outgoing[i].message.id)
  }

  /** An answer in the router's hands is addressed to the connection its
      request came from, and that request is in flight. */
  ghost predicate RouterHolds(router: Router, received: seq<Received>) {
    match router
    case Rewritten(e, origin) =>
      && (e.message.IsAnswer() <==> origin.Some?)
      && (origin.Some? ==>
            && e.ToConnection? && origin.value < |received|
            && received[origin.value] == Received(e.conn, e.message.id, InFlight))
    case Delivering(m, targets, origin) =>
      && (m.IsAnswer() <==> origin.Some?)
      && (origin.Some? && targets != [] ==>
            && origin.value < |received| && |targets| == 1
            && received[origin.value] == Received(targets[0], m.id, InFlight))
    case _ => true
  }

  predicate WasAnswered(fate: Fate) {
    fate == Answered || fate == Refused(true)
  }

  ghost predicate AnswerMatches(a: Answer, received: seq<Received>) {
    && a.read < |received|
    && received[a.read].conn == a.conn
    && received[a.read].id == a.id
    && WasAnswered(received[a.read].fate)
  }

  /** The log of answers: right connection, right id, each request once. */
  ghost predicate AnswersMatch(answers: seq<Answer>, received: seq<Received>) {
    && (forall i | 0 <= i < |answers| :: AnswerMatches(answers[i], received))
    && (forall i, j | 0 <= i < j < |answers| :: answers[i].read != answers[j].read)
  }

  ghost predicate AnswerInv(s: State) {
    && s.nextOrdinal == |s.accepted|
    && QueuedRequests(s.transport, s.received)
    && RoutesBelong(s.routes, s.accepted, s.received)
    && OutgoingAnswers(s.outgoing)
    && RouterHolds(s.router, s.received)
    && AnswersMatch(s.answers, s.received)
  }

  // ------------------------------------- what a change of fates leaves alone

  datatype Kind = QUEUED | ROUTED | IN_FLIGHT | ANSWERED | OTHER

  function KindOf(fate: Fate): Kind {
    match fate
    case Queued => QUEUED
    case Routed(_) => ROUTED
    case InFlight => IN_FLIGHT
    case _ => if WasAnswered(fate) then ANSWERED else OTHER
  }

  ghost predicate Keeps(a: seq<Received>, b: seq<Received>, kind: Kind) {
    && |a| <= |b|
    && forall r | 0 <= r < |a| && KindOf(a[r].fate) == kind :: b[r] == a[r]
  }

  /** Fates of one kind may change freely without touching the facts about
      the other kinds. */
  lemma FrameAll(s: State, b: seq<Received>)
    requires AnswerInv(s)
    ensures Keeps(s.received, b, QUEUED) ==> QueuedRequests(s.transport, b)
    ensures Keeps(s.received, b, ROUTED) ==> RoutesBelong(s.routes, s.accepted, b)
    ensures Keeps(s.received, b, ANSWERED) ==> AnswersMatch(s.answers, b)
    ensures Keeps(s.received, b, IN_FLIGHT) ==> RouterHolds(s.router, b)
  {
  }

  /** Changing one fate leaves the facts about fates of other kinds alone. */
  lemma FrameSetFate(s: State, r: nat, fate: Fate)
    requires AnswerInv(s) && r < |s.received|
    ensures var kind, b := KindOf(s.received[r].fate), SetFate(s.received, r, fate);
            && (kind != QUEUED ==> QueuedRequests(s.transport, b))
            && (kind != ROUTED ==> RoutesBelong(s.routes, s.accepted, b))
            && (kind != ANSWERED ==> AnswersMatch(s.answers, b))
            && (kind != IN_FLIGHT ==> RouterHolds(s.router, b))
  {
  }

  lemma QueuePush(transport: seq<TransportEvent>, e: TransportEvent, received: seq<Received>)
    requires QueuedRequests(transport, received) && !IsRequestEvent(e)
    ensures QueuedRequests(transport + [e], received)
  {
  }

  lemma RemoveRoute(routes: RouteTable, accepted: seq<nat>, received: seq<Received>, id: RequestId)
    requires RoutesBelong(routes, accepted, received) && id in routes
    ensures RouteBelongs(id, routes[id], accepted, received)
    ensures RoutesBelong(routes - {id}, accepted, SetFate(received, routes[id].read, InFlight))
  {
  }

  lemma PushAnswer(answers: seq<Answer>, received: seq<Received>, r: nat)
    requires AnswersMatch(answers, received)
    requires r < |received| && received[r].fate == InFlight
    ensures AnswersMatch(answers + [Answer(received[r].conn, received[r].id, r)], SetFate(received, r, Answered))
  {
  }

  lemma FirstTwoDiffer(order: seq<ConnectionId>, items: set<ConnectionId>)
    requires Enumerates(order, items) && |order| > 1
    ensures order[0] in items && order[1] in items && order[0] != order[1]
  {
  }

  lemma AtMostOneTarget(s: State, e: Envelope, order: seq<ConnectionId>)
    requires e.ToConnection? && Enumerates(order, Targets(s, e))
    ensures order == [] || order == [e.conn]
  {
    if |order| > 1 {
      FirstTwoDiffer(order, Targets(s, e));
      assert false;
    }
  }

  predicate IsBusy(router: Router) {
    router.Rewritten? || router.Delivering?
  }

  /** Steps that leave the histories, the routes and the outgoing channel alone. */
  lemma SameParts(s: State, t: State)
    requires AnswerInv(s) && QueuedRequests(t.transport, s.received)
    requires t.nextOrdinal == s.nextOrdinal && t.received == s.received && t.accepted == s.accepted
    requires t.routes == s.routes && t.outgoing == s.outgoing && t.answers == s.answers
    requires t.router == s.router || !IsBusy(t.router)
    ensures AnswerInv(t)
  {
  }

  // ------------------------------------------------------------ preservation

  lemma EnqueueRequestKeeps(s: State, c: ConnectionId, id: RequestId)
    requires AnswerInv(s)
    ensures AnswerInv(EnqueueRequest(s, c, id))
  {
  }

  lemma RefuseRequestKeeps(s: State, c: ConnectionId, id: RequestId)
    requires AnswerInv(s) && c in s.writers
    ensures AnswerInv(RefuseRequest(s, c, id))
  {
  }

  lemma LoseRequestKeeps(s: State, c: ConnectionId, id: RequestId, fate: Fate, stop: bool)
    requires AnswerInv(s)
    ensures AnswerInv(LoseRequest(s, c, id, fate, stop))
  {
  }

  lemma ReadRequestKeeps(s: State, c: ConnectionId, id: RequestId)
    requires AnswerInv(s) && Enabled(s, ReadRequest(c, id))
    ensures AnswerInv(ApplyReadRequest(s, c, id))
  {
    EnqueueRequestKeeps(s, c, id);
    RefuseRequestKeeps(s, c, id);
    LoseRequestKeeps(s, c, id, Unheard, true);
    LoseRequestKeeps(s, c, id, Refused(false), !s.writers[c].open);
    hide AnswerInv, EnqueueRequest, RefuseRequest, LoseRequest, Enabled;
  }

  lemma ConnectionStepKeeps(s: State, step: Step)
    requires AnswerInv(s) && Enabled(s, step) && step.IsConnectionStep()
    ensures AnswerInv(Apply(s, step))
  {
    hide ApplyReadRequest, ApplyRouter, ApplyProcessor, ApplyEmit;
    if step.ReadRequest? {
      ReadRequestKeeps(s, step.conn, step.id);
      hide AnswerInv;
    } else {
      var t := Apply(s, step);
      if t.transport != s.transport {
        QueuePush(s.transport, t.transport[|s.transport|], s.received);
      }
      hide AnswerInv, QueuedRequests;
      SameParts(s, t);
    }
  }

  lemma AcceptRequestKeeps(s: State)
    requires AnswerInv(s) && Enabled(s, TakeRequest)
    ensures AnswerInv(AcceptRequest(s))
  {
  }

  lemma DropRequestKeeps(s: State)
    requires AnswerInv(s) && Enabled(s, TakeRequest)
    ensures AnswerInv(DropRequest(s))
  {
  }

  lemma RemoveRoutesKeeps(s: State)
    requires AnswerInv(s) && Enabled(s, RemoveRoutes)
    ensures AnswerInv(ApplyRemoveRoutes(s))
  {
  }

  lemma EmitKeeps(s: State, send: Send)
    requires AnswerInv(s) && IsSendable(s, send)
    ensures AnswerInv(ApplyEmit(s, send))
  {
    hide QueuedRequests, RoutesBelong, RouterHolds, AnswersMatch;
    if send.SendAnswer? {
      InternalIdInjective(s.received[s.accepted[send.ordinal]].conn, send.ordinal, 0, 0);
    }
  }

  lemma HandlerSentKeeps(s: State)
    requires AnswerInv(s) && Enabled(s, HandlerSent)
    ensures AnswerInv(ApplyHandlerSent(s))
  {
    EmitKeeps(s, s.processor.sending.value);
    hide QueuedRequests, RoutesBelong, RouterHolds, AnswersMatch, OutgoingAnswers, Enabled;
  }

  lemma TakeEventKeeps(s: State, t: State)
    requires AnswerInv(s) && s.transport != [] && t.transport == s.transport[1..]
    requires t.nextOrdinal == s.nextOrdinal && t.received == s.received && t.accepted == s.accepted
    requires t.routes == s.routes && t.outgoing == s.outgoing && t.answers == s.answers && t.router == s.router
    ensures AnswerInv(t)
  {
  }

  lemma ProcessorStepKeeps(s: State, step: Step)
    requires AnswerInv(s) && Enabled(s, step)
    requires !step.IsConnectionStep() && !step.IsRouterStep()
    ensures AnswerInv(Apply(s, step))
  {
    assert QueuedRequests(s.transport, s.received);
    hide AnswerInv, QueuedRequests, ApplyConnection, ApplyRouter, ApplyTakeRequest, ApplyRemoveRoutes, ApplyEmit;
    hide ApplyHandlerSent;
    if step.Emit? {
      EmitKeeps(s, step.send);
    } else if step.HandlerSent? {
      HandlerSentKeeps(s);
    } else if step.TakeRequest? {
      TakeRequestKeeps(s);
    } else if step.RemoveRoutes? {
      RemoveRoutesKeeps(s);
    } else if step.TakeOpened? || step.TakeOther? || step.TakeClosed? {
      TakeEventKeeps(s, Apply(s, step));
    } else {
      hide Enabled, ApplyTakeClosed;
      SameParts(s, Apply(s, step));
    }
  }

  lemma TakeRequestKeeps(s: State)
    requires AnswerInv(s) && Enabled(s, TakeRequest)
    ensures AnswerInv(ApplyTakeRequest(s))
  {
    AcceptRequestKeeps(s);
    DropRequestKeeps(s);
    hide AnswerInv, AcceptRequest, DropRequest, Enabled;
  }

  lemma RouterTakeRoutedKeeps(s: State)
    requires AnswerInv(s) && Enabled(s, RouterTake)
    requires s.outgoing[0].message.IsAnswer() && s.outgoing[0].message.id in s.routes
    ensures AnswerInv(ApplyRouterTake(s))
  {
    var m := s.outgoing[0].message;
    assert OutgoingAnswers(s.outgoing[1..]) && s.outgoing[0].Broadcast?;
    RemoveRoute(s.routes, s.accepted, s.received, m.id);
    hide QueuedRequests, RoutesBelong, AnswersMatch, OutgoingAnswers;
    FrameSetFate(s, s.routes[m.id].read, InFlight);
  }

  lemma RouterTakeOtherKeeps(s: State)
    requires AnswerInv(s) && Enabled(s, RouterTake)
    requires !(s.outgoing[0].message.IsAnswer() && s.outgoing[0].message.id in s.routes)
    ensures AnswerInv(ApplyRouterTake(s))
  {
  }

  lemma RouterTargetsKeeps(s: State, order: seq<ConnectionId>)
    requires AnswerInv(s) && Enabled(s, RouterTargets(order))
    ensures AnswerInv(ApplyRouterTargets(s, order))
  {
    var t := ApplyRouterTargets(s, order);
    hide QueuedRequests, RoutesBelong, OutgoingAnswers, AnswersMatch;
    FrameAll(s, t.received);
    if s.router.envelope.ToConnection? {
      AtMostOneTarget(s, s.router.envelope, order);
    }
  }

  lemma DeliverToKeeps(s: State)
    requires AnswerInv(s) && Enabled(s, RouterDeliver) && s.router.targets[0] in s.writers
    ensures AnswerInv(DeliverTo(s, s.router.targets[0]))
  {
    hide QueuedRequests, RoutesBelong, OutgoingAnswers, AnswersMatch;
    if s.router.origin.Some? {
      FrameSetFate(s, s.router.origin.value, Answered);
      PushAnswer(s.answers, s.received, s.router.origin.value);
    }
  }

  lemma DisconnectTargetKeeps(s: State)
    requires AnswerInv(s) && Enabled(s, RouterDeliver)
    ensures AnswerInv(DisconnectTarget(s, s.router.targets[0]))
  {
  }

  lemma SkipTargetKeeps(s: State)
    requires AnswerInv(s) && Enabled(s, RouterDeliver)
    ensures AnswerInv(SkipTarget(s))
  {
  }

  lemma RouterDeliverKeeps(s: State)
    requires AnswerInv(s) && Enabled(s, RouterDeliver)
    ensures AnswerInv(ApplyRouterDeliver(s))
  {
    DisconnectTargetKeeps(s);
    SkipTargetKeeps(s);
    if s.router.targets[0] in s.writers {
      DeliverToKeeps(s);
    }
    hide AnswerInv, DeliverTo, DisconnectTarget, SkipTarget, Enabled;
  }

  lemma RouterQueueKeeps(s: State, step: Step)
    requires AnswerInv(s) && Enabled(s, step) && step.IsRouterStep()
    requires !step.RouterTake? && !step.RouterTargets? && !step.RouterDeliver?
    ensures AnswerInv(Apply(s, step))
  {
  }

  lemma RouterStepKeeps(s: State, step: Step)
    requires AnswerInv(s) && Enabled(s, step) && step.IsRouterStep()
    ensures AnswerInv(Apply(s, step))
  {
    if step.RouterTake? {
      if s.outgoing[0].message.IsAnswer() && s.outgoing[0].message.id in s.routes {
        RouterTakeRoutedKeeps(s);
      } else {
        RouterTakeOtherKeeps(s);
      }
    } else if step.RouterTargets? {
      RouterTargetsKeeps(s, step.order);
    } else if step.RouterDeliver? {
      RouterDeliverKeeps(s);
    } else {
      RouterQueueKeeps(s, step);
    }
    hide AnswerInv, ApplyRouterTake, ApplyRouterTargets, ApplyRouterDeliver, ApplyConnection, ApplyProcessor, Enabled;
  }

  lemma StepKeeps(s: State, step: Step)
    requires AnswerInv(s) && Enabled(s, step)
    ensures AnswerInv(Apply(s, step))
  {
    hide AnswerInv;
    if step.IsConnectionStep() {
      ConnectionStepKeeps(s, step);
    } else if step.IsRouterStep() {
      RouterStepKeeps(s, step);
    } else {
      ProcessorStepKeeps(s, step);
    }
  }

  lemma {:induction false} AlongRun(states: seq<State>, steps: seq<Step>, i: nat)
    requires IsRun(states, steps) && i < |states|
    ensures AnswerInv(states[i])
  {
    if i > 0 {
      AlongRun(states, steps, i - 1);
      StepKeeps(states[i - 1], steps[i - 1]);
    }
  }

  /** An answer leaves the router only for the connection whose request it
      answers; an answer whose route is gone is never broadcast. */
  lemma RouterNeverBroadcastsAnswers(states: seq<State>, steps: seq<Step>, i: nat)
    requires IsRun(states, steps) && i < |states|
    ensures states[i].router.Rewritten? && states[i].router.envelope.message.IsAnswer() ==>
              states[i].router.envelope.ToConnection?
    ensures states[i].router.Delivering? && states[i].router.message.IsAnswer() ==>
              |states[i].router.targets| <= 1
  {
    AlongRun(states, steps, i);
  }
}
