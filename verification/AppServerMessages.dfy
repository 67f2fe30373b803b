/** Where the messages a client gets come from: every one was sent to it by a
    handler, or is the answer to its own request, and the router chose the
    client for it by its flags and its own opt-outs. */
module AppServerMessages {
  import opened Text
  import opened RequestRouting
  import opened AppServer
  import opened AppServerFrames
  import opened AppServerAnswers
  import opened AppServerLifecycle
  import opened AppServerSessions

  const OVERLOADED := "Server overloaded; retry later."

  // ------------------------------------------------------- what one step does

  /** A step that puts an envelope into the outgoing channel. */
  predicate IsSend(step: Step) {
    step.Emit? || step.HandlerSent?
  }

  function SendOf(s: State, step: Step): Send
    requires Enabled(s, step) && IsSend(step)
  {
    if step.Emit? then step.send else s.processor.sending.value
  }

  lemma SendIsSendable(s: State, step: Step)
    requires Enabled(s, step) && IsSend(step)
    ensures IsSendable(s, SendOf(s, step))
  {
  }

  lemma OutgoingAfter(s: State, step: Step)
    requires Enabled(s, step)
    ensures IsSend(step) ==>
              IsSendable(s, SendOf(s, step))
              && Apply(s, step).outgoing == s.outgoing + [EnvelopeOf(s, SendOf(s, step))]
    ensures step.RouterTake? ==> s.outgoing != [] && Apply(s, step).outgoing == s.outgoing[1..]
    ensures !IsSend(step) && !step.RouterTake? ==> Apply(s, step).outgoing == s.outgoing
  {
    hide ApplyConnection, ApplyProcessor, EnvelopeOf;
    if step.IsConnectionStep() {
      ConnectionStaysInside(s, step);
    } else if step.IsRouterStep() {
      RouterOutgoing(s, step);
      hide ApplyRouter;
    } else if !IsSend(step) {
      ProcessorStaysInside(s, step);
    }
  }

  ghost predicate SameOutgoing(s: State, t: State) {
    t.outgoing == s.outgoing
  }

  lemma RouterOutgoing(s: State, step: Step)
    requires Enabled(s, step) && step.IsRouterStep()
    ensures step.RouterTake? ==> s.outgoing != [] && ApplyRouter(s, step).outgoing == s.outgoing[1..]
    ensures !step.RouterTake? ==> SameOutgoing(s, ApplyRouter(s, step))
  {
    hide ApplyRouterTake, ApplyRouterDeliver;
    if step.RouterDeliver? {
      DeliverOutgoing(s);
    } else if step.RouterTake? {
      TakeShortensOutgoing(s);
    }
    hide Enabled;
  }

  lemma TakeShortensOutgoing(s: State)
    requires Enabled(s, RouterTake)
    ensures s.outgoing != [] && ApplyRouterTake(s).outgoing == s.outgoing[1..]
  {
    hide Rewrite, SetFateOf, OriginOf;
  }

  lemma DeliverOutgoing(s: State)
    requires Enabled(s, RouterDeliver)
    ensures SameOutgoing(s, ApplyRouterDeliver(s))
  {
    var c := s.router.targets[0];
    assert SameOutgoing(s, SkipTarget(s)) && SameOutgoing(s, DisconnectTarget(s, c));
    assert c in s.writers ==> SameOutgoing(s, DeliverTo(s, c));
    hide SameOutgoing, SkipTarget, DisconnectTarget, DeliverTo;
  }

  /** The router's hands after a step. */
  ghost predicate RouterAfter(s: State, step: Step, router: Router)
    requires Enabled(s, step)
  {
    match step
    case RouterTake =>
      var rewritten := Rewrite(s.outgoing[0], s.routes).0;
      if rewritten.Some? then router.Rewritten? && router.envelope == rewritten.value else router.RouterIdle?
    case RouterTargets(order) =>
      router.Delivering? && router.message == s.router.envelope.message && router.targets == order
    case RouterDeliver =>
      router.Delivering? && router.message == s.router.message && router.targets == s.router.targets[1..]
    case _ => if step.IsRouterStep() then !router.Rewritten? && !router.Delivering? else router == s.router
  }

  lemma RouterFollows(s: State, step: Step)
    requires Enabled(s, step)
    ensures RouterAfter(s, step, Apply(s, step).router)
  {
    if step.IsConnectionStep() {
      ConnectionStaysInside(s, step);
      hide ApplyConnection, Enabled;
    } else if step.IsRouterStep() {
      RouterStepFollows(s, step);
      hide ApplyRouter, Enabled, RouterAfter;
    } else if !IsSend(step) {
      ProcessorStaysInside(s, step);
      hide ApplyProcessor, Enabled;
    }
  }

  lemma RouterStepFollows(s: State, step: Step)
    requires Enabled(s, step) && step.IsRouterStep()
    ensures RouterAfter(s, step, ApplyRouter(s, step).router)
  {
    hide Rewrite, SetFateOf, ApplyRouterDeliver;
    if step.RouterDeliver? {
      DeliverFollows(s);
      hide RouterAfter;
    }
  }

  lemma DeliverFollows(s: State)
    requires Enabled(s, RouterDeliver)
    ensures RouterAfter(s, RouterDeliver, ApplyRouterDeliver(s).router)
  {
    var c := s.router.targets[0];
    assert RouterAfter(s, RouterDeliver, SkipTarget(s).router);
    assert RouterAfter(s, RouterDeliver, DisconnectTarget(s, c).router);
    assert c in s.writers ==> RouterAfter(s, RouterDeliver, DeliverTo(s, c).router);
    hide RouterAfter, SkipTarget, DisconnectTarget, DeliverTo;
  }

  /** What a step gives to the writer of `c`. */
  ghost function Given(s: State, step: Step, c: ConnectionId): seq<Message>
    requires Enabled(s, step)
  {
    if step.RouterDeliver? && s.router.targets[0] == c && c in s.outbound && WriterAccepts(s, c) then [s.router.message]
    else if step.ReadRequest? && step.conn == c && !s.processor.ProcessorExited? && !HasRoom(s.transport)
            && WriterAccepts(s, c)
    then [Error(step.id, OVERLOADED)]
    else []
  }

  ghost predicate WritersAreKnown(s: State) {
    forall c | c in s.writers :: c < s.nextConnectionId
  }

  ghost predicate IsGiven(s: State, t: State, c: ConnectionId, messages: seq<Message>) {
    c in t.writers ==> t.writers[c].Sent() == (if c in s.writers then s.writers[c].Sent() else []) + messages
  }

  lemma SameWritersGiven(s: State, t: State, c: ConnectionId)
    requires t.writers == s.writers
    ensures IsGiven(s, t, c, [])
  {
  }

  lemma WriterIsGiven(s: State, step: Step, c: ConnectionId)
    requires Enabled(s, step) && WritersAreKnown(s)
    ensures IsGiven(s, Apply(s, step), c, Given(s, step, c))
  {
    if step.IsConnectionStep() {
      ConnectionGives(s, step, c);
      hide ApplyConnection, IsGiven, Given, Enabled;
    } else if step.IsRouterStep() {
      RouterGives(s, step, c);
      hide ApplyRouter, IsGiven, Given, Enabled;
    } else {
      if !IsSend(step) {
        ProcessorStaysInside(s, step);
      }
      hide ApplyProcessor, IsGiven, Enabled, EnvelopeOf;
      SameWritersGiven(s, Apply(s, step), c);
    }
  }

  lemma ConnectionGives(s: State, step: Step, c: ConnectionId)
    requires Enabled(s, step) && step.IsConnectionStep() && WritersAreKnown(s)
    ensures IsGiven(s, ApplyConnection(s, step), c, Given(s, step, c))
  {
    hide ApplyReadRequest;
    if step.ReadRequest? {
      ReadGives(s, step.conn, step.id, c);
    } else if step.DrainWriter? {
      DrainGives(s, step.conn, c);
    }
  }

  lemma DrainGives(s: State, d: ConnectionId, c: ConnectionId)
    requires Enabled(s, DrainWriter(d))
    ensures IsGiven(s, ApplyConnection(s, DrainWriter(d)), c, [])
  {
    var w := s.writers[d];
    assert w.taken + [w.queue[0]] + w.queue[1..] == w.taken + w.queue;
  }

  lemma ReadGives(s: State, d: ConnectionId, id: RequestId, c: ConnectionId)
    requires Enabled(s, ReadRequest(d, id))
    ensures IsGiven(s, ApplyReadRequest(s, d, id), c, Given(s, ReadRequest(d, id), c))
  {
    SameWritersGiven(s, EnqueueRequest(s, d, id), c);
    SameWritersGiven(s, LoseRequest(s, d, id, Unheard, true), c);
    SameWritersGiven(s, LoseRequest(s, d, id, Refused(false), !s.writers[d].open), c);
    PushGives(s, RefuseRequest(s, d, id), d, Error(id, OVERLOADED), c);
    hide IsGiven, EnqueueRequest, LoseRequest, RefuseRequest;
  }

  lemma PushGives(s: State, t: State, d: ConnectionId, m: Message, c: ConnectionId)
    requires d in s.writers && t.writers == PushWriter(s, d, m)
    ensures IsGiven(s, t, c, if c == d then [m] else [])
  {
  }

  lemma DeliverGives(s: State, c: ConnectionId)
    requires Enabled(s, RouterDeliver)
    ensures IsGiven(s, ApplyRouterDeliver(s), c, Given(s, RouterDeliver, c))
  {
    var d := s.router.targets[0];
    SameWritersGiven(s, SkipTarget(s), c);
    SameWritersGiven(s, DisconnectTarget(s, d), c);
    if d in s.writers {
      PushGives(s, DeliverTo(s, d), d, s.router.message, c);
    }
    hide IsGiven, SkipTarget, DisconnectTarget, DeliverTo;
  }

  lemma RouterGives(s: State, step: Step, c: ConnectionId)
    requires Enabled(s, step) && step.IsRouterStep()
    ensures IsGiven(s, ApplyRouter(s, step), c, Given(s, step, c))
  {
    if step.RouterDeliver? {
      DeliverGives(s, c);
      hide IsGiven, ApplyRouterDeliver, Enabled;
    } else {
      SameWritersGiven(s, ApplyRouter(s, step), c);
      hide IsGiven;
    }
  }

  // ----------------------------------------------------------- looking back

  /** A message in a writer's log was put there by one earlier step. */
  lemma {:induction false} GivenBefore(
      states: seq<State>, steps: seq<Step>, i: nat, c: ConnectionId, m: Message) returns (j: nat)
    requires IsRun(states, steps) && i < |states| && c in states[i].writers && m in states[i].writers[c].Sent()
    ensures j < i && Enabled(states[j], steps[j]) && m in Given(states[j], steps[j], c)
  {
    NothingSentAtStart(states[0]);
    assert i > 0;
    StepOfRun(states, steps, i - 1);
    WritersStayKnown(states, steps, i - 1);
    hide WritersAreKnown;
    WriterIsGiven(states[i - 1], steps[i - 1], c);
    hide IsRun, Given, Enabled, Apply;
    if m in Given(states[i - 1], steps[i - 1], c) {
      j := i - 1;
    } else {
      j := GivenBefore(states, steps, i - 1, c, m);
    }
  }

  lemma NothingSentAtStart(s: State)
    requires Init(s)
    ensures forall c | c in s.writers :: s.writers[c].Sent() == []
  {
  }

  lemma WritersStayKnown(states: seq<State>, steps: seq<Step>, i: nat)
    requires IsRun(states, steps) && i < |states|
    ensures WritersAreKnown(states[i])
  {
    LifecycleAlongRun(states, steps, i);
    hide IsRun, SessionInv;
  }

  /** A message in delivery to `c` had `c` among its targets when they were
      chosen. */
  lemma {:induction false} ChosenBefore(states: seq<State>, steps: seq<Step>, i: nat, c: ConnectionId) returns (j: nat)
    requires IsRun(states, steps) && i < |states|
    requires states[i].router.Delivering? && c in states[i].router.targets
    ensures j < i && Enabled(states[j], steps[j]) && steps[j].RouterTargets? && c in steps[j].order
    ensures states[j].router.Rewritten? && states[j].router.envelope.message == states[i].router.message
  {
    assert i > 0;
    StepOfRun(states, steps, i - 1);
    RouterFollows(states[i - 1], steps[i - 1]);
    hide IsRun, Apply;
    if steps[i - 1].RouterTargets? {
      j := i - 1;
    } else {
      j := ChosenBefore(states, steps, i - 1, c);
    }
  }

  /** A rewritten envelope was taken from the outgoing channel. */
  lemma {:induction false} TakenBefore(states: seq<State>, steps: seq<Step>, i: nat) returns (j: nat)
    requires IsRun(states, steps) && i < |states| && states[i].router.Rewritten?
    ensures j < i && Enabled(states[j], steps[j]) && steps[j].RouterTake?
    ensures Rewrite(states[j].outgoing[0], states[j].routes).0 == Some(states[i].router.envelope)
  {
    assert i > 0;
    StepOfRun(states, steps, i - 1);
    RouterFollows(states[i - 1], steps[i - 1]);
    hide IsRun, Apply, Rewrite;
    if steps[i - 1].RouterTake? {
      j := i - 1;
    } else {
      j := TakenBefore(states, steps, i - 1);
    }
  }

  /** An envelope in the outgoing channel was sent. */
  lemma {:induction false} SentBefore(states: seq<State>, steps: seq<Step>, i: nat, e: Envelope) returns (j: nat)
    requires IsRun(states, steps) && i < |states| && e in states[i].outgoing
    ensures j < i && Enabled(states[j], steps[j]) && IsSend(steps[j])
    ensures IsSendable(states[j], SendOf(states[j], steps[j]))
    ensures EnvelopeOf(states[j], SendOf(states[j], steps[j])) == e
  {
    assert i > 0;
    var s, step := states[i - 1], steps[i - 1];
    StepOfRun(states, steps, i - 1);
    OutgoingAfter(s, step);
    hide IsRun, Apply, Enabled, EnvelopeOf, IsSendable;
    if IsSend(step) && EnvelopeOf(s, SendOf(s, step)) == e {
      j := i - 1;
      SendIsSendable(s, step);
    } else {
      assert e in s.outgoing;
      j := SentBefore(states, steps, i - 1, e);
    }
  }

  // ------------------------------------------------- what the run remembers

  /** Whose requests were read, and under which ids, is never rewritten. */
  ghost predicate SameOrigins(a: seq<Received>, b: seq<Received>) {
    |a| <= |b| && forall r | 0 <= r < |a| :: b[r].conn == a[r].conn && b[r].id == a[r].id
  }

  ghost predicate Remembers(s: State, t: State) {
    s.accepted <= t.accepted && SameOrigins(s.received, t.received)
  }

  lemma FatesKeepOrigins(received: seq<Received>, origin: Option<nat>, fate: Fate)
    ensures SameOrigins(received, SetFateOf(received, origin, fate))
  {
  }

  lemma RouterRemembers(s: State, step: Step)
    requires Enabled(s, step) && step.IsRouterStep()
    ensures Remembers(s, ApplyRouter(s, step))
  {
    hide SameOrigins, Remembers, ApplyRouterTake, ApplyRouterTargets, ApplyRouterDeliver;
    if step.RouterTake? {
      TakeRemembers(s);
    } else if step.RouterTargets? {
      TargetsRemembers(s, step.order);
    } else if step.RouterDeliver? {
      DeliverRemembers(s);
    } else {
      SameRemembered(s, ApplyRouter(s, step));
    }
    hide Enabled;
  }

  lemma SameRemembered(s: State, t: State)
    requires t.accepted == s.accepted && t.received == s.received
    ensures Remembers(s, t)
  {
  }

  lemma TakeRemembers(s: State)
    requires Enabled(s, RouterTake)
    ensures Remembers(s, ApplyRouterTake(s))
  {
    FatesKeepOrigins(s.received, OriginOf(s, s.outgoing[0]), InFlight);
    hide SetFateOf, Rewrite, SameOrigins, OriginOf, Enabled;
  }

  lemma TargetsRemembers(s: State, order: seq<ConnectionId>)
    requires Enabled(s, RouterTargets(order))
    ensures Remembers(s, ApplyRouterTargets(s, order))
  {
    SameIsRemembered(s.received);
    FatesKeepOrigins(s.received, s.router.origin, Lost);
    hide SetFateOf, SameOrigins, Enabled;
  }

  lemma SameIsRemembered(received: seq<Received>)
    ensures SameOrigins(received, received)
  {
  }

  lemma DeliverRemembers(s: State)
    requires Enabled(s, RouterDeliver)
    ensures Remembers(s, ApplyRouterDeliver(s))
  {
    var c := s.router.targets[0];
    FatesKeepOrigins(s.received, s.router.origin, Lost);
    FatesKeepOrigins(s.received, s.router.origin, Answered);
    hide SetFateOf, SameOrigins;
    assert Remembers(s, SkipTarget(s)) && Remembers(s, DisconnectTarget(s, c));
    assert c in s.writers ==> Remembers(s, DeliverTo(s, c));
    hide Remembers, SkipTarget, DisconnectTarget, DeliverTo;
  }

  lemma ProcessorRemembers(s: State, step: Step)
    requires Enabled(s, step)
    requires !step.IsConnectionStep() && !step.IsRouterStep() && !IsSend(step)
    ensures Remembers(s, ApplyProcessor(s, step))
  {
    SameIsRemembered(s.received);
    if step.TakeRequest? {
      RequestIsRemembered(s);
      hide ApplyTakeRequest;
    } else if step.RemoveRoutes? {
      assert SameOrigins(s.received, VanishRoutesOf(s.received, s.processor.conn));
    }
    hide SameOrigins, Enabled, VanishRoutesOf;
  }

  lemma RequestIsRemembered(s: State)
    requires Enabled(s, TakeRequest)
    ensures Remembers(s, ApplyTakeRequest(s))
  {
  }

  lemma StepRemembers(s: State, step: Step)
    requires Enabled(s, step)
    ensures Remembers(s, Apply(s, step))
  {
    hide ApplyConnection, ApplyRouter, ApplyProcessor, EnvelopeOf, Enabled;
    if step.IsConnectionStep() {
      ConnectionStaysInside(s, step);
    } else if step.IsRouterStep() {
      RouterRemembers(s, step);
    } else if !IsSend(step) {
      ProcessorRemembers(s, step);
    }
  }

  lemma {:induction false} RunRemembers(states: seq<State>, steps: seq<Step>, i: nat, j: nat)
    requires IsRun(states, steps) && i <= j < |states|
    ensures Remembers(states[i], states[j])
  {
    hide Enabled, Apply, Init, Remembers;
    assert |states| == |steps| + 1;
    hide IsRun;
    if i < j {
      RunRemembers(states, steps, i, j - 1);
      StepOfRun(states, steps, j - 1);
      StepRemembers(states[j - 1], steps[j - 1]);
      RememberingGoesOn(states[i], states[j - 1], states[j]);
    } else {
      RemembersItself(states[i]);
    }
  }

  lemma RememberingGoesOn(s: State, t: State, u: State)
    requires Remembers(s, t) && Remembers(t, u)
    ensures Remembers(s, u)
  {
  }

  lemma RemembersItself(s: State)
    ensures Remembers(s, s)
  {
  }

  // ------------------------------------------------------- flags and opt-outs

  /** A request of `c` is being handled. */
  predicate Serves(s: State, c: ConnectionId) {
    s.processor.Handling? && s.processor.conn == c
  }

  /** The opt-outs `c` last asked for before step `i`. */
  ghost function LastOptOut(states: seq<State>, steps: seq<Step>, i: nat, c: ConnectionId): Option<set<string>>
    requires i <= |steps| <= |states|
  {
    if i == 0 then None
    else if steps[i - 1].SetOptOut? && Serves(states[i - 1], c) then Some(steps[i - 1].methods)
    else LastOptOut(states, steps, i - 1, c)
  }

  /** Before step `i` the processor published that `c` is initialized. */
  ghost predicate WasPublished(states: seq<State>, steps: seq<Step>, i: nat, c: ConnectionId)
    requires i <= |steps| <= |states|
  {
    exists j :: 0 <= j < i && steps[j].PublishInitialized? && Serves(states[j], c)
  }

  ghost predicate SameFlags(s: State, t: State) {
    t.optOutFlags == s.optOutFlags && t.initializedFlags == s.initializedFlags
  }

  lemma FlagsAfter(s: State, step: Step)
    requires Enabled(s, step)
    ensures var t := Apply(s, step);
            && (step.SetOptOut? ==>
                  s.processor.Handling? && t.initializedFlags == s.initializedFlags
                  && t.optOutFlags == s.optOutFlags[s.processor.conn := step.methods])
            && (step.PublishInitialized? ==>
                  s.processor.Handling? && t.optOutFlags == s.optOutFlags
                  && t.initializedFlags == s.initializedFlags + {s.processor.conn})
            && (!step.SetOptOut? && !step.PublishInitialized? ==> SameFlags(s, t))
  {
    hide ApplyConnection, ApplyRouter, EnvelopeOf;
    if step.IsConnectionStep() {
      ConnectionStaysInside(s, step);
    } else if step.IsRouterStep() {
      RouterStaysInside(s, step);
    } else if !IsSend(step) && !step.SetOptOut? && !step.PublishInitialized? {
      ProcessorLeavesFlags(s, step);
      hide ApplyProcessor;
    }
  }

  lemma ProcessorLeavesFlags(s: State, step: Step)
    requires Enabled(s, step) && !step.IsConnectionStep() && !step.IsRouterStep() && !IsSend(step)
    requires !step.SetOptOut? && !step.PublishInitialized?
    ensures SameFlags(s, ApplyProcessor(s, step))
  {
    hide Enabled, SetFate, VanishRoutesOf, WithoutRoutesOf, WithoutListenersOf, ApplyTakeRequest;
    if step.TakeRequest? {
      TakeRequestLeavesFlags(s);
    }
  }

  lemma TakeRequestLeavesFlags(s: State)
    requires Enabled(s, TakeRequest)
    ensures SameFlags(s, ApplyTakeRequest(s))
  {
    hide Enabled, SetFate;
  }

  function PublishedOptOut(s: State, c: ConnectionId): Option<set<string>> {
    if c in s.optOutFlags then Some(s.optOutFlags[c]) else None
  }

  lemma FlagsOfOneAfter(s: State, step: Step, c: ConnectionId)
    requires Enabled(s, step)
    ensures var t := Apply(s, step);
            && PublishedOptOut(t, c)
               == (if step.SetOptOut? && Serves(s, c) then Some(step.methods) else PublishedOptOut(s, c))
            && (c in t.initializedFlags <==>
                  c in s.initializedFlags || (step.PublishInitialized? && Serves(s, c)))
  {
    hide Enabled, Apply;
    FlagsAfter(s, step);
  }

  /** The published flags are what the clients asked for: the opt-outs of a
      connection are those it named last, and it counts as initialized exactly
      from when the processor published it. */
  lemma {:induction false} FlagsAreTheClientsOwn(states: seq<State>, steps: seq<Step>, i: nat, c: ConnectionId)
    requires IsRun(states, steps) && i < |states|
    ensures PublishedOptOut(states[i], c) == LastOptOut(states, steps, i, c)
    ensures c in states[i].initializedFlags <==> WasPublished(states, steps, i, c)
  {
    hide Enabled, Apply;
    assert |states| == |steps| + 1 && Init(states[0]);
    hide IsRun;
    if i > 0 {
      hide Init, Serves, PublishedOptOut;
      FlagsAreTheClientsOwn(states, steps, i - 1, c);
      StepOfRun(states, steps, i - 1);
      FlagsOfOneAfter(states[i - 1], steps[i - 1], c);
      assert WasPublished(states, steps, i, c)
        <==> WasPublished(states, steps, i - 1, c) || (steps[i - 1].PublishInitialized? && Serves(states[i - 1], c));
    }
  }

  // ---------------------------------------------------------------- theorems

  /** What `send` means for connection `c`. */
  ghost predicate Carries(s: State, send: Send, c: ConnectionId, m: Message) {
    match send
    case SendAnswer(n, success, body) =>
      && n < |s.accepted| && s.accepted[n] < |s.received|
      && var q := s.received[s.accepted[n]];
         q.conn == c && m == if success then Response(q.id, body) else Error(q.id, body)
    case SendOther(e) => !m.IsAnswer() && m == e.message && (e.ToConnection? ==> e.conn == c)
  }

  /** At step `i` the router chose `c` for message `m`: a registered connection
      the message is addressed to, or an initialized one for a broadcast, and
      for a notification one that did not opt out of it. */
  ghost predicate IsChosen(states: seq<State>, steps: seq<Step>, i: nat, c: ConnectionId, m: Message)
    requires i < |steps| <= |states|
  {
    && steps[i].RouterTargets? && c in steps[i].order && c in states[i].outbound
    && states[i].router.Rewritten? && states[i].router.envelope.message == m
    && (states[i].router.envelope.ToConnection? ==> states[i].router.envelope.conn == c)
    && (states[i].router.envelope.Broadcast? ==> WasPublished(states, steps, i, c))
    && (m.Notification? ==>
          LastOptOut(states, steps, i, c).None? || m.name !in LastOptOut(states, steps, i, c).value)
  }

  lemma ChosenIsMeant(states: seq<State>, steps: seq<Step>, i: nat, c: ConnectionId)
    requires IsRun(states, steps) && i < |steps| && Enabled(states[i], steps[i])
    requires steps[i].RouterTargets? && c in steps[i].order
    ensures states[i].router.Rewritten? && IsChosen(states, steps, i, c, states[i].router.envelope.message)
  {
    assert i < |states|;
    hide IsRun, LastOptOut, WasPublished, Enabled;
    FlagsAreTheClientsOwn(states, steps, i, c);
    TargetIsMeant(states[i], steps[i].order, c);
  }

  /** Whom the router picks, by the flags it reads. */
  lemma TargetIsMeant(s: State, order: seq<ConnectionId>, c: ConnectionId)
    requires Enabled(s, RouterTargets(order))
    ensures s.router.Rewritten?
    ensures var e := s.router.envelope;
            c in order <==>
              && c in s.outbound && (if e.ToConnection? then e.conn == c else c in s.initializedFlags)
              && !(e.message.Notification? && c in s.optOutFlags && e.message.name in s.optOutFlags[c])
  {
    var e := s.router.envelope;
    assert c in order <==> c in Targets(s, e);
  }

  /** The envelope that `send` queued, rewritten on the way: whom it is for. */
  lemma RewrittenCarries(s: State, send: Send, t: State, v: Envelope)
    requires IsSendable(s, send) && AnswerInv(t) && Remembers(s, t)
    requires Rewrite(EnvelopeOf(s, send), t.routes).0 == Some(v)
    ensures send.SendAnswer? ==> v.ToConnection?
    ensures forall c: ConnectionId | v.ToConnection? ==> v.conn == c :: Carries(s, send, c, v.message)
  {
    if send.SendAnswer? {
      var r := s.accepted[send.ordinal];
      var id := InternalId(s.received[r].conn, send.ordinal);
      InternalIdInjective(s.received[r].conn, send.ordinal, 0, 0);
      assert id in t.routes;
      assert RouteBelongs(id, t.routes[id], t.accepted, t.received);
      var n := t.received[t.routes[id].read].fate.ordinal;
      InternalIdInjective(t.routes[id].conn, n, s.received[r].conn, send.ordinal);
    }
  }

  /** Every message a client was given is the overload error for a request it
      sent, or a handler sent it to that client, or to all, and the router chose
      the client for it. An answer has the body of the handler's answer to a
      request of that client, under the id the client gave it. */
  lemma EveryMessageHasItsSource(
      states: seq<State>, steps: seq<Step>, i: nat, c: ConnectionId, m: Message) returns (a: nat, t: nat)
    requires IsRun(states, steps) && i < |states| && c in states[i].writers && m in states[i].writers[c].Sent()
    ensures a < i && Enabled(states[a], steps[a])
    ensures || (steps[a].ReadRequest? && steps[a].conn == c && m == Error(steps[a].id, OVERLOADED))
            || (&& a < t < i && IsSend(steps[a]) && Carries(states[a], SendOf(states[a], steps[a]), c, m)
                && IsChosen(states, steps, t, c, m))
  {
    assert |states| == |steps| + 1;
    hide IsRun, AnswerInv, Remembers, Rewrite, EnvelopeOf, IsSendable, Given, Enabled, Carries, IsChosen, SendOf;
    a := GivenBefore(states, steps, i, c, m);
    t := a;
    WhoGives(states[a], steps[a], c, m);
    if steps[a].RouterDeliver? {
      t := ChosenBefore(states, steps, a, c);
      ChosenIsMeant(states, steps, t, c);
      var k := TakenBefore(states, steps, t);
      ChannelIsNotEmpty(states[k]);
      a := SentBefore(states, steps, k, states[k].outgoing[0]);
      RunRemembers(states, steps, a, k);
      AlongRun(states, steps, k);
      RewrittenCarries(states[a], SendOf(states[a], steps[a]), states[k], states[t].router.envelope);
      ChosenConnection(states, steps, t, c, m);
    }
  }

  lemma WhoGives(s: State, step: Step, c: ConnectionId, m: Message)
    requires Enabled(s, step) && m in Given(s, step, c)
    ensures step.RouterDeliver? ==> s.router.Delivering? && c in s.router.targets && s.router.message == m
    ensures !step.RouterDeliver? ==> step.ReadRequest? && step.conn == c && m == Error(step.id, OVERLOADED)
  {
  }

  lemma ChannelIsNotEmpty(s: State)
    requires Enabled(s, RouterTake)
    ensures s.outgoing != []
  {
  }

  lemma ChosenConnection(states: seq<State>, steps: seq<Step>, t: nat, c: ConnectionId, m: Message)
    requires t < |steps| <= |states| && IsChosen(states, steps, t, c, m)
    ensures states[t].router.Rewritten?
    ensures states[t].router.envelope.ToConnection? ==> states[t].router.envelope.conn == c
  {
  }

  /** Until the router is done with a message, a target was served or is yet to
      be. */
  lemma {:induction false} ServedOrWaiting(states: seq<State>, steps: seq<Step>, t: nat, j: nat, c: ConnectionId)
      returns (k: nat)
    requires IsRun(states, steps) && t < j <= |steps| && steps[t].RouterTargets? && c in steps[t].order
    requires forall l | t < l < j :: steps[l] != RouterDelivered
    ensures states[t].router.Rewritten? && states[j].router.Delivering?
    ensures states[j].router.message == states[t].router.envelope.message
    ensures c in states[j].router.targets || (t < k < j && Serving(states[k], steps[k], c, states[j].router.message))
    decreases j
  {
    hide Apply, Enabled, Serving;
    var s, step := states[j - 1], steps[j - 1];
    StepOfRun(states, steps, j - 1);
    k := 0;
    if j - 1 == t {
      TargetsBegin(s, step);
    } else {
      hide IsRun;
      k := ServedOrWaiting(states, steps, t, j - 1, c);
      StepServes(s, step, c);
      if Serving(s, step, c, s.router.message) {
        k := j - 1;
      }
    }
  }

  lemma TargetsBegin(s: State, step: Step)
    requires Enabled(s, step) && step.RouterTargets?
    ensures s.router.Rewritten?
    ensures var router := Apply(s, step).router;
            router.Delivering? && router.message == s.router.envelope.message && router.targets == step.order
  {
    RouterFollows(s, step);
    hide Apply;
  }

  /** One step leaves a target waiting, or serves it. */
  lemma StepServes(s: State, step: Step, c: ConnectionId)
    requires Enabled(s, step) && s.router.Delivering? && step != RouterDelivered
    ensures var router := Apply(s, step).router;
            && router.Delivering? && router.message == s.router.message
            && (c in s.router.targets ==> c in router.targets || Serving(s, step, c, router.message))
  {
    RouterFollows(s, step);
    hide Apply;
    if step.IsRouterStep() {
      NoOtherStepDelivers(s, step);
      assert s.router.targets == [s.router.targets[0]] + s.router.targets[1..];
    }
  }

  /** The router hands `m` to `c`, the next of its targets. */
  ghost predicate Serving(s: State, step: Step, c: ConnectionId, m: Message) {
    step.RouterDeliver? && s.router.Delivering? && s.router.targets != [] && s.router.targets[0] == c
    && s.router.message == m && Enabled(s, step)
  }

  lemma NoOtherStepDelivers(s: State, step: Step)
    requires Enabled(s, step) && s.router.Delivering? && step.IsRouterStep()
    ensures step.RouterDeliver? || step.RouterDelivered?
    ensures step.RouterDeliver? ==> s.router.targets != []
  {
  }

  /** Nobody is left out: a registered connection that the message is addressed
      to, or an initialized one for a broadcast, gets it, except for a
      notification it opted out of; requests and answers are never held back.
      When its turn comes the message goes to its writer, unless the connection
      was forgotten in between or the writer is closed or full. */
  lemma EveryTargetIsServed(states: seq<State>, steps: seq<Step>, t: nat, j: nat, c: ConnectionId) returns (k: nat)
    requires IsRun(states, steps) && t < j < |steps| && steps[t].RouterTargets? && steps[j] == RouterDelivered
    requires forall l | t < l < j :: steps[l] != RouterDelivered
    requires c in states[t].outbound && states[t].router.Rewritten?
    requires var e := states[t].router.envelope;
             && (if e.ToConnection? then e.conn == c else WasPublished(states, steps, t, c))
             && (e.message.Notification? ==>
                   LastOptOut(states, steps, t, c).None? || e.message.name !in LastOptOut(states, steps, t, c).value)
    ensures t < k < j && Enabled(states[k], steps[k]) && steps[k] == RouterDeliver
    ensures var s, u, m := states[k], states[k + 1], states[t].router.envelope.message;
            var works := c in s.outbound && c in s.writers && s.writers[c].open && |s.writers[c].queue| < 128;
            && (c in u.writers ==>
                  u.writers[c].Sent()
                  == (if c in s.writers then s.writers[c].Sent() else []) + if works then [m] else [])
            && (!works ==> c !in u.outbound)
  {
    StepOfRun(states, steps, t);
    FlagsAreTheClientsOwn(states, steps, t, c);
    TargetIsMeant(states[t], steps[t].order, c);
    StepOfRun(states, steps, j);
    k := ServedOrWaiting(states, steps, t, j, c);
    DeliveryIsOver(states[j]);
    hide LastOptOut, WasPublished, Serving, WritersAreKnown;
    StepOfRun(states, steps, k);
    WritersStayKnown(states, steps, k);
    hide IsRun, Apply, Enabled;
    ServingIsGiven(states[k], steps[k], c, states[t].router.envelope.message);
  }

  lemma ServingIsGiven(s: State, step: Step, c: ConnectionId, m: Message)
    requires Enabled(s, step) && Serving(s, step, c, m) && WritersAreKnown(s)
    ensures step == RouterDeliver
    ensures var u := Apply(s, step);
            var works := c in s.outbound && c in s.writers && s.writers[c].open && |s.writers[c].queue| < 128;
            && (c in u.writers ==>
                  u.writers[c].Sent()
                  == (if c in s.writers then s.writers[c].Sent() else []) + if works then [m] else [])
            && (!works ==> c !in u.outbound)
  {
    hide WritersAreKnown;
    WriterIsGiven(s, step, c);
    FailingIsForgotten(s);
    hide Apply, Enabled;
  }

  lemma DeliveryIsOver(s: State)
    requires Enabled(s, RouterDelivered)
    ensures s.router.Delivering? && s.router.targets == []
  {
  }

  lemma FailingIsForgotten(s: State)
    requires Enabled(s, RouterDeliver)
    ensures !WriterAccepts(s, s.router.targets[0]) ==> s.router.targets[0] !in Apply(s, RouterDeliver).outbound
  {
    hide SetFateOf, Apply, WriterAccepts, DeliverTo;
    DeliverIsApplied(s);
  }

  lemma DeliverIsApplied(s: State)
    requires Enabled(s, RouterDeliver)
    ensures Apply(s, RouterDeliver) == ApplyRouterDeliver(s)
  {
    hide ApplyRouterDeliver, Enabled;
  }
}
