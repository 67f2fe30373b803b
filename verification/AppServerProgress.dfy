/** No deadlock in WebSocket mode, and bounded channels in both modes: the
    router never waits for the transport channel or for a writer, so a
    processor blocked on a full channel can always be released by the router
    alone. */
module AppServerProgress {
  import opened Text
  import opened RequestRouting
  import opened AppServer
  import opened AppServerFrames
  import opened AppServerLifecycle
  import opened AppServerSessions

  // --------------------------------------------------------------- capacity

  ghost predicate WithinCapacity(s: State) {
    && |s.transport| <= CHANNEL_CAPACITY
    && |s.outgoing| <= CHANNEL_CAPACITY
    && |s.control| <= CHANNEL_CAPACITY
    && (forall c | c in s.writers :: |s.writers[c].queue| <= CHANNEL_CAPACITY)
  }

  lemma DeliverWithinCapacity(s: State)
    requires WithinCapacity(s) && Enabled(s, RouterDeliver)
    ensures WithinCapacity(ApplyRouterDeliver(s))
  {
    var c := s.router.targets[0];
    assert WithinCapacity(SkipTarget(s)) && WithinCapacity(DisconnectTarget(s, c));
    assert WriterAccepts(s, c) ==> WithinCapacity(DeliverTo(s, c));
    hide WithinCapacity, SkipTarget, DisconnectTarget, DeliverTo, Enabled;
  }

  lemma ReadWithinCapacity(s: State, c: ConnectionId, id: RequestId)
    requires WithinCapacity(s) && Enabled(s, ReadRequest(c, id))
    ensures WithinCapacity(ApplyReadRequest(s, c, id))
  {
    assert HasRoom(s.transport) ==> WithinCapacity(EnqueueRequest(s, c, id));
    assert WriterAccepts(s, c) ==> WithinCapacity(RefuseRequest(s, c, id));
    assert forall fate, stop :: WithinCapacity(LoseRequest(s, c, id, fate, stop));
    hide WithinCapacity, EnqueueRequest, RefuseRequest, LoseRequest, Enabled;
  }

  lemma ConnectionWithinCapacity(s: State, step: Step)
    requires WithinCapacity(s) && Enabled(s, step) && step.IsConnectionStep()
    ensures WithinCapacity(ApplyConnection(s, step))
  {
    hide ApplyReadRequest;
    if step.ReadRequest? {
      ReadWithinCapacity(s, step.conn, step.id);
    }
  }

  lemma RouterWithinCapacity(s: State, step: Step)
    requires WithinCapacity(s) && Enabled(s, step) && step.IsRouterStep()
    ensures WithinCapacity(ApplyRouter(s, step))
  {
    hide ApplyRouterDeliver;
    if step.RouterDeliver? {
      DeliverWithinCapacity(s);
    }
  }

  lemma ProcessorWithinCapacity(s: State, step: Step)
    requires WithinCapacity(s) && Enabled(s, step)
    requires !step.IsConnectionStep() && !step.IsRouterStep() && !step.Emit? && !step.HandlerSent?
    ensures WithinCapacity(ApplyProcessor(s, step))
  {
    ProcessorStaysInside(s, step);
    hide WithoutRoutesOf, WithoutListenersOf, VanishRoutesOf, SetFate, IsSendable, Enabled;
  }

  lemma StepWithinCapacity(s: State, step: Step)
    requires WithinCapacity(s) && Enabled(s, step)
    ensures WithinCapacity(Apply(s, step))
  {
    hide ApplyConnection, ApplyRouter, ApplyProcessor;
    if step.IsConnectionStep() {
      ConnectionWithinCapacity(s, step);
    } else if step.IsRouterStep() {
      RouterWithinCapacity(s, step);
    } else if !step.Emit? && !step.HandlerSent? {
      ProcessorWithinCapacity(s, step);
    }
  }

  // ---------------------------------------------------- the processor lives

  /** In WebSocket mode neither task ever exits, and the processor never waits
      for routes. */
  ghost predicate TasksLive(s: State) {
    s.mode.WebSocket? ==>
      !s.processor.ProcessorExited? && !s.router.RouterExited? && !s.processor.WaitingForRoutes?
  }

  /** What the router leaves alone while it hands out one message. */
  ghost predicate SameWork(s: State, t: State) {
    && t.processor == s.processor && t.mode == s.mode && t.control == s.control && t.outgoing == s.outgoing
    && t.router.RouterExited? == s.router.RouterExited?
  }

  /** `t` is `s` after one more target. */
  ghost predicate OneTargetLess(s: State, t: State) {
    SameWork(s, t) && s.router.Delivering? && t.router.Delivering? && |t.router.targets| == |s.router.targets| - 1
  }

  lemma DeliverWorks(s: State)
    requires Enabled(s, RouterDeliver)
    ensures OneTargetLess(s, ApplyRouterDeliver(s))
  {
    var c := s.router.targets[0];
    assert OneTargetLess(s, SkipTarget(s)) && OneTargetLess(s, DisconnectTarget(s, c));
    assert WriterAccepts(s, c) ==> OneTargetLess(s, DeliverTo(s, c));
    hide OneTargetLess, SkipTarget, DisconnectTarget, DeliverTo, Enabled;
  }

  lemma ProcessorKeepsTasksLive(s: State, step: Step)
    requires TasksLive(s) && Enabled(s, step)
    requires !step.IsConnectionStep() && !step.IsRouterStep() && !step.Emit? && !step.HandlerSent?
    ensures TasksLive(ApplyProcessor(s, step))
  {
    ProcessorStaysInside(s, step);
    hide WithoutRoutesOf, WithoutListenersOf, VanishRoutesOf, SetFate, IsSendable, Enabled;
  }

  lemma StepKeepsTasksLive(s: State, step: Step)
    requires TasksLive(s) && Enabled(s, step)
    ensures TasksLive(Apply(s, step)) && Apply(s, step).mode == s.mode
  {
    assert step.RouterExit? ==> s.processor.ProcessorExited?;
    hide ApplyConnection, ApplyRouter, ApplyProcessor, Enabled;
    if step.IsConnectionStep() {
      ConnectionStaysInside(s, step);
    } else if step.IsRouterStep() {
      RouterStaysInside(s, step);
    } else if !step.Emit? && !step.HandlerSent? {
      ProcessorStaysInside(s, step);
      ProcessorKeepsTasksLive(s, step);
    }
  }

  // ---------------------------------------------------------- pending sends

  /** What a handler waits to send stays sendable. */
  ghost predicate SendIsValid(s: State) {
    s.processor.Handling? && s.processor.sending.Some? ==> IsSendable(s, s.processor.sending.value)
  }

  /** Nothing read or accepted is forgotten. */
  ghost predicate HistoryGrows(s: State, t: State) {
    s.accepted <= t.accepted && |s.received| <= |t.received|
  }

  lemma GrowingKeepsSend(s: State, t: State)
    requires SendIsValid(s) && HistoryGrows(s, t) && t.processor == s.processor
    ensures SendIsValid(t)
  {
  }

  lemma ProcessorKeepsSend(s: State, step: Step)
    requires SendIsValid(s) && Enabled(s, step)
    requires !step.IsConnectionStep() && !step.IsRouterStep() && !step.Emit? && !step.HandlerSent?
    ensures SendIsValid(ApplyProcessor(s, step))
  {
  }

  lemma StepKeepsSend(s: State, step: Step)
    requires SendIsValid(s) && Enabled(s, step)
    ensures SendIsValid(Apply(s, step))
  {
    hide ApplyConnection, ApplyRouter, ApplyProcessor, Enabled;
    if step.IsConnectionStep() {
      ConnectionStaysInside(s, step);
      GrowingKeepsSend(s, ApplyConnection(s, step));
    } else if step.IsRouterStep() {
      RouterStaysInside(s, step);
      GrowingKeepsSend(s, ApplyRouter(s, step));
    } else if !step.Emit? && !step.HandlerSent? {
      ProcessorKeepsSend(s, step);
    }
  }

  lemma {:induction false} LiveAlongRun(states: seq<State>, steps: seq<Step>, i: nat)
    requires IsRun(states, steps) && i < |states|
    ensures TasksLive(states[i]) && WithinCapacity(states[i]) && SendIsValid(states[i])
  {
    hide TasksLive, WithinCapacity, SendIsValid, Apply, Enabled, Init;
    if i == 0 {
      StartsLive(states[0]);
    } else {
      LiveAlongRun(states, steps, i - 1);
      StepKeepsTasksLive(states[i - 1], steps[i - 1]);
      StepWithinCapacity(states[i - 1], steps[i - 1]);
      StepKeepsSend(states[i - 1], steps[i - 1]);
    }
  }

  lemma StartsLive(s: State)
    requires Init(s)
    ensures TasksLive(s) && WithinCapacity(s) && SendIsValid(s)
  {
  }

  // ------------------------------------------------------------ router runs

  /** `steps` are router steps that lead from `s` to `t`. */
  ghost predicate RouterLeads(s: State, steps: seq<Step>, t: State)
    decreases |steps|
  {
    if steps == [] then s == t
    else steps[0].IsRouterStep() && Enabled(s, steps[0]) && RouterLeads(Apply(s, steps[0]), steps[1..], t)
  }

  lemma RouterLeadsBy(s: State, step: Step, steps: seq<Step>, t: State)
    requires step.IsRouterStep() && Enabled(s, step) && RouterLeads(Apply(s, step), steps, t)
    ensures RouterLeads(s, [step] + steps, t)
  {
  }

  lemma {:induction false} RouterLeadsOn(s: State, first: seq<Step>, t: State, second: seq<Step>, u: State)
    requires RouterLeads(s, first, t) && RouterLeads(t, second, u)
    ensures RouterLeads(s, first + second, u)
    decreases |first|
  {
    hide Apply, Enabled;
    if first == [] {
      assert first + second == second;
    } else {
      RouterLeadsOn(Apply(s, first[0]), first[1..], t, second, u);
      assert (first + second)[1..] == first[1..] + second;
      assert first + second == [first[0]] + (first[1..] + second);
    }
  }

  lemma {:induction false} Enumeration(items: set<ConnectionId>) returns (order: seq<ConnectionId>)
    ensures Enumerates(order, items)
  {
    if items == {} {
      order := [];
    } else {
      var x :| x in items;
      var rest := Enumeration(items - {x});
      order := [x] + rest;
    }
  }

  ghost predicate RouterAlive(s: State) {
    s.mode.WebSocket? && !s.processor.ProcessorExited? && !s.router.RouterExited?
  }

  lemma {:induction false} FinishDelivering(s: State) returns (steps: seq<Step>, t: State)
    requires RouterAlive(s) && s.router.Delivering?
    ensures RouterLeads(s, steps, t) && SameWork(s, t) && t.router.Flushing?
    ensures |steps| == |s.router.targets| + 1
    decreases |s.router.targets|
  {
    var step := if s.router.targets == [] then RouterDelivered else RouterDeliver;
    hide ApplyRouterDeliver;
    if s.router.targets == [] {
      t := ApplyRouter(s, step);
      assert RouterLeads(t, [], t);
      steps := [];
    } else {
      DeliverWorks(s);
      steps, t := FinishDelivering(ApplyRouter(s, step));
    }
    RouterLeadsBy(s, step, steps, t);
    steps := [step] + steps;
  }

  lemma FlushWorks(s: State, step: Step)
    requires RouterAlive(s) && s.router.Flushing?
    requires step == if s.pendingClosed != [] && HasRoom(s.transport) then RouterFlush else RouterFlushed
    ensures Enabled(s, step) && SameWork(s, Apply(s, step)) && RouterAlive(Apply(s, step))
    ensures step.RouterFlush? ==>
              var t := Apply(s, step);
              s.pendingClosed != [] && t.router.Flushing? && |t.pendingClosed| == |s.pendingClosed| - 1
    ensures step.RouterFlushed? ==> Apply(s, step).router.RouterIdle?
  {
  }

  lemma {:induction false} FinishFlushing(s: State) returns (steps: seq<Step>, t: State)
    requires RouterAlive(s) && s.router.Flushing?
    ensures RouterLeads(s, steps, t) && SameWork(s, t) && t.router.RouterIdle?
    ensures |steps| <= |s.pendingClosed| + 1
    decreases |s.pendingClosed|
  {
    var step := if s.pendingClosed != [] && HasRoom(s.transport) then RouterFlush else RouterFlushed;
    FlushWorks(s, step);
    var u := Apply(s, step);
    hide Apply, Enabled;
    if step.RouterFlush? {
      steps, t := FinishFlushing(u);
    } else {
      assert RouterLeads(u, [], u);
      steps, t := [], u;
    }
    RouterLeadsBy(s, step, steps, t);
    steps := [step] + steps;
  }

  /** Wherever the router is, it gets back to its `select!` on its own. */
  lemma ReachIdle(s: State) returns (steps: seq<Step>, t: State)
    requires RouterAlive(s)
    ensures RouterLeads(s, steps, t) && SameWork(s, t) && t.router.RouterIdle?
  {
    var u := s;
    steps := [];
    assert RouterLeads(s, steps, u);
    if u.router.Rewritten? {
      var order := Enumeration(Targets(u, u.router.envelope));
      var v := ApplyRouter(u, RouterTargets(order));
      assert RouterLeads(v, [], v);
      RouterLeadsBy(u, RouterTargets(order), [], v);
      steps, u := [RouterTargets(order)] + [], v;
    }
    if u.router.Delivering? {
      var more, v := FinishDelivering(u);
      RouterLeadsOn(s, steps, u, more, v);
      steps, u := steps + more, v;
    }
    if u.router.Flushing? {
      var more, v := FinishFlushing(u);
      RouterLeadsOn(s, steps, u, more, v);
      steps, u := steps + more, v;
    }
    t := u;
  }

  /** The router alone frees a place in a non-empty control channel. */
  lemma FreesControl(s: State) returns (steps: seq<Step>, t: State)
    requires RouterAlive(s) && s.control != []
    ensures RouterLeads(s, steps, t) && RouterAlive(t) && t.processor == s.processor
    ensures t.control == s.control[1..] && t.outgoing == s.outgoing
  {
    var u;
    steps, u := ReachIdle(s);
    t := ApplyRouter(u, RouterControl);
    assert RouterLeads(t, [], t);
    RouterLeadsBy(u, RouterControl, [], t);
    RouterLeadsOn(s, steps, u, [RouterControl] + [], t);
    steps := steps + ([RouterControl] + []);
  }

  /** The router alone frees a place in a non-empty outgoing channel, after
      the control events that overtake it. */
  lemma {:induction false} FreesOutgoing(s: State) returns (steps: seq<Step>, t: State)
    requires RouterAlive(s) && s.outgoing != []
    ensures RouterLeads(s, steps, t) && t.processor == s.processor && t.outgoing == s.outgoing[1..]
    decreases |s.control|
  {
    var u;
    if s.control != [] {
      steps, u := FreesControl(s);
      var more;
      more, t := FreesOutgoing(u);
      RouterLeadsOn(s, steps, u, more, t);
      steps := steps + more;
    } else {
      steps, u := ReachIdle(s);
      t := ApplyRouter(u, RouterTake);
      assert RouterLeads(t, [], t);
      RouterLeadsBy(u, RouterTake, [], t);
      RouterLeadsOn(s, steps, u, [RouterTake] + [], t);
      steps := steps + ([RouterTake] + []);
    }
  }

  // ---------------------------------------------------------------- theorems

  /** In every reachable WebSocket state the router can, without any other
      task, make room in the control channel and in the outgoing channel, so a
      processor or handler blocked on either is never blocked for good. */
  lemma RouterAlwaysMakesRoom(states: seq<State>, steps: seq<Step>, i: nat)
    returns (control: seq<Step>, t: State, outgoing: seq<Step>, u: State)
    requires IsRun(states, steps) && i < |states| && states[i].mode.WebSocket?
    ensures RouterLeads(states[i], control, t) && HasRoom(t.control) && t.processor == states[i].processor
    ensures RouterLeads(states[i], outgoing, u) && HasRoom(u.outgoing) && u.processor == states[i].processor
  {
    LiveAlongRun(states, steps, i);
    var s := states[i];
    if HasRoom(s.control) {
      control, t := [], s;
      assert RouterLeads(s, [], s);
    } else {
      control, t := FreesControl(s);
    }
    if HasRoom(s.outgoing) {
      outgoing, u := [], s;
      assert RouterLeads(s, [], s);
    } else {
      outgoing, u := FreesOutgoing(s);
    }
  }

  lemma HandlesKnownConnection(states: seq<State>, steps: seq<Step>, i: nat)
    requires IsRun(states, steps) && i < |states|
    ensures states[i].processor.Handling? ==> states[i].processor.conn in states[i].connections
  {
    LifecycleAlongRun(states, steps, i);
  }

  /** What a processor in the middle of an event does next. */
  function ProcessorStep(processor: Processor): Step
    requires !processor.Idle? && !processor.ProcessorExited?
  {
    match processor
    case Opening(_) => SendOpened
    case Handling(_, publishing, sending) =>
      if publishing then PublishInitialized else if sending.Some? then HandlerSent else FinishRequest
    case WaitingForRoutes(_) => RoutesDrained
    case SendingClosed(_) => SendClosed
    case RemovingConnection(_) => RemoveConnection
    case RemovingRoutes(_) => RemoveRoutes
  }

  /** How many such steps an event still takes, if its handler starts nothing
      new. */
  function StepsLeft(processor: Processor): nat {
    match processor
    case Handling(_, publishing, sending) => if publishing then 3 else if sending.Some? then 2 else 1
    case Opening(_) => 1
    case WaitingForRoutes(_) => 4
    case SendingClosed(_) => 3
    case RemovingConnection(_) => 2
    case RemovingRoutes(_) => 1
    case _ => 0
  }

  function Last(states: seq<State>): State
    requires states != []
  {
    states[|states| - 1]
  }

  /** The task that takes the step is the processor. */
  predicate IsProcessorStep(step: Step) {
    !step.IsConnectionStep() && !step.IsRouterStep() && !step.Emit?
  }

  lemma ExtendByOne(states: seq<State>, steps: seq<Step>, step: Step)
    requires IsRun(states, steps) && Enabled(Last(states), step)
    ensures IsRun(states + [Apply(Last(states), step)], steps + [step])
  {
    hide Apply, Enabled, Init;
  }

  /** A run goes on with the router's steps. */
  lemma {:induction false} ExtendByRouter(states: seq<State>, steps: seq<Step>, more: seq<Step>, t: State)
      returns (longer: seq<State>)
    requires IsRun(states, steps) && RouterLeads(Last(states), more, t)
    ensures IsRun(longer, steps + more) && states <= longer && Last(longer) == t
    ensures forall k | 0 <= k < |more| :: more[k].IsRouterStep()
    decreases |more|
  {
    assert states != [];
    hide Apply, Enabled, IsRun;
    if more == [] {
      longer := states;
      assert steps + more == steps;
    } else {
      var step, rest := more[0], more[1..];
      var next := Apply(Last(states), step);
      hide RouterLeads;
      ExtendByOne(states, steps, step);
      var one, taken := states + [next], steps + [step];
      LastOf(states, next);
      longer := ExtendByRouter(one, taken, rest, t);
      AssociateSteps(steps, [step], rest);
      assert more == [step] + rest;
      assert states <= one;
    }
  }

  lemma LastOf(states: seq<State>, t: State)
    ensures Last(states + [t]) == t
  {
  }

  /** With room in the channel it may be waiting for, the processor goes on. */
  lemma ProcessorGoesOn(states: seq<State>, steps: seq<Step>)
    requires IsRun(states, steps) && Last(states).mode.WebSocket? && !Last(states).processor.Idle?
    requires HasTheRoomNeeded(Last(states))
    ensures !Last(states).processor.ProcessorExited?
    ensures var s, step := Last(states), ProcessorStep(Last(states).processor);
            IsProcessorStep(step) && Enabled(s, step) && StepsLeft(Apply(s, step).processor) < StepsLeft(s.processor)
  {
    var i := |states| - 1;
    LiveAlongRun(states, steps, i);
    HandlesKnownConnection(states, steps, i);
    hide IsRun, WithinCapacity, IsSendable;
    NextStepWorks(states[i]);
  }

  lemma NextStepWorks(s: State)
    requires s.mode.WebSocket? && TasksLive(s) && SendIsValid(s) && !s.processor.Idle?
    requires s.processor.Handling? ==> s.processor.conn in s.connections
    requires HasTheRoomNeeded(s)
    ensures !s.processor.ProcessorExited?
    ensures var step := ProcessorStep(s.processor);
            IsProcessorStep(step) && Enabled(s, step) && StepsLeft(Apply(s, step).processor) < StepsLeft(s.processor)
  {
    if HandlerWaits(s) {
      HandlerSentWorks(s);
    } else {
      ProcessorWorks(s);
      hide IsSendable, ApplyConnection, ApplyRouter, ApplyProcessor;
    }
  }

  lemma HandlerSentWorks(s: State)
    requires s.mode.WebSocket? && TasksLive(s) && SendIsValid(s) && HandlerWaits(s) && HasRoom(s.outgoing)
    ensures Enabled(s, HandlerSent) && StepsLeft(Apply(s, HandlerSent).processor) < StepsLeft(s.processor)
  {
    hide IsSendable, ApplyConnection, ApplyRouter, ApplyProcessor, EnvelopeOf;
  }

  lemma ProcessorWorks(s: State)
    requires s.mode.WebSocket? && TasksLive(s) && !s.processor.Idle? && !HandlerWaits(s)
    requires s.processor.Handling? ==> s.processor.conn in s.connections
    requires HasTheRoomNeeded(s)
    ensures !s.processor.ProcessorExited?
    ensures var step := ProcessorStep(s.processor);
            && IsProcessorStep(step) && !step.HandlerSent? && Enabled(s, step)
            && StepsLeft(ApplyProcessor(s, step).processor) < StepsLeft(s.processor)
  {
    hide IsSendable, VanishRoutesOf, WithoutRoutesOf, WithoutListenersOf, Targets, Enumerates, WriterBlocks;
    if s.processor.Handling? {
      HandlingWorks(s);
      hide ApplyProcessor;
    }
  }

  lemma HandlingWorks(s: State)
    requires s.processor.Handling? && !HandlerWaits(s) && s.processor.conn in s.connections
    ensures var step := if s.processor.publishing then PublishInitialized else FinishRequest;
            Enabled(s, step) && StepsLeft(ApplyProcessor(s, step).processor) < StepsLeft(s.processor)
  {
  }

  /** The channel the processor may be waiting for has room. */
  predicate HasTheRoomNeeded(s: State) {
    && (HasRoom(s.control) || !(s.processor.Opening? || s.processor.SendingClosed?))
    && (HasRoom(s.outgoing) || !HandlerWaits(s))
  }

  /** The run goes on by router steps until that is so. */
  lemma RunMakesRoom(states: seq<State>, steps: seq<Step>) returns (longer: seq<State>, more: seq<Step>)
    requires IsRun(states, steps) && Last(states).mode.WebSocket?
    ensures IsRun(longer, steps + more) && states <= longer
    ensures forall k | 0 <= k < |more| :: more[k].IsRouterStep()
    ensures Last(longer).processor == Last(states).processor && Last(longer).mode.WebSocket?
    ensures HasTheRoomNeeded(Last(longer))
  {
    assert states != [];
    var i: nat := |states| - 1;
    hide IsRun, RouterLeads, HasTheRoomNeeded;
    var v: State;
    more, v := RouterMakesTheRoomNeeded(states, steps);
    longer := ExtendByRouter(states, steps, more, v);
    ModeStays(longer, steps + more, i);
  }

  /** No deadlock: from every reachable WebSocket state whose processor is in
      the middle of an event, whatever it waits for, the run goes on by finitely
      many router steps, which leave the processor as it is, and then a step of
      the processor that brings it nearer to the end of the event. */
  lemma ProcessorIsReleased(states: seq<State>, steps: seq<Step>)
      returns (longer: seq<State>, more: seq<Step>, step: Step)
    requires IsRun(states, steps) && Last(states).mode.WebSocket? && !Last(states).processor.Idle?
    ensures IsRun(longer, steps + more + [step]) && states <= longer && |longer| > |states|
    ensures (forall k | 0 <= k < |more| :: more[k].IsRouterStep()) && IsProcessorStep(step)
    ensures longer[|longer| - 2].processor == Last(states).processor
    ensures StepsLeft(Last(longer).processor) < StepsLeft(Last(states).processor)
  {
    hide StepsLeft, ProcessorStep, IsProcessorStep, HasTheRoomNeeded, Apply, Enabled;
    var before;
    before, more := RunMakesRoom(states, steps);
    ProcessorGoesOn(before, steps + more);
    step := ProcessorStep(Last(before).processor);
    var after := Apply(Last(before), step);
    hide IsRun;
    ExtendByOne(before, steps + more, step);
    LastOf(before, after);
    OneMoreState(states, before, after);
    longer := before + [after];
  }

  lemma OneMoreState(states: seq<State>, before: seq<State>, after: State)
    requires states <= before && before != []
    ensures states <= before + [after] && (before + [after])[|before| - 1] == Last(before)
    ensures |before + [after]| == |before| + 1
  {
  }

  lemma RouterMakesTheRoomNeeded(states: seq<State>, steps: seq<Step>) returns (more: seq<Step>, v: State)
    requires IsRun(states, steps) && Last(states).mode.WebSocket?
    ensures RouterLeads(Last(states), more, v) && v.processor == Last(states).processor
    ensures HasTheRoomNeeded(v)
  {
    var i: nat := |states| - 1;
    hide IsRun, RouterLeads;
    var control, t, outgoing, u := RouterAlwaysMakesRoom(states, steps, i);
    if HandlerWaits(states[i]) {
      more, v := outgoing, u;
    } else {
      more, v := control, t;
    }
  }

  lemma {:induction false} ModeStays(states: seq<State>, steps: seq<Step>, i: nat)
    requires IsRun(states, steps) && i < |states|
    ensures Last(states).mode == states[i].mode
    decreases |states| - i
  {
    hide TasksLive, Apply, Enabled, Init;
    if i < |states| - 1 {
      LiveAlongRun(states, steps, i);
      StepKeepsTasksLive(states[i], steps[i]);
      ModeStays(states, steps, i + 1);
    }
  }

  /** Hence every reachable WebSocket state can go on, by steps of the processor
      and the router alone, to one in which the processor takes its next event. */
  lemma {:induction false} ProcessorReturnsToItsLoop(states: seq<State>, steps: seq<Step>)
      returns (longer: seq<State>, more: seq<Step>)
    requires IsRun(states, steps) && Last(states).mode.WebSocket?
    ensures IsRun(longer, steps + more) && states <= longer && Last(longer).processor.Idle?
    ensures forall k | 0 <= k < |more| :: more[k].IsRouterStep() || IsProcessorStep(more[k])
    decreases StepsLeft(Last(states).processor)
  {
    assert states != [];
    hide IsRun;
    if Last(states).processor.Idle? {
      longer, more := states, [];
      assert steps + more == steps;
    } else {
      var step;
      longer, more, step := ProcessorIsReleased(states, steps);
      more := more + [step];
      var rest: seq<Step>;
      var was := longer;
      AssociateSteps(steps, more[..|more| - 1], [step]);
      ModeStays(was, steps + more, |states| - 1);
      longer, rest := ProcessorReturnsToItsLoop(was, steps + more);
      AssociateSteps(steps, more, rest);
      more := more + rest;
    }
  }

  lemma AssociateSteps(a: seq<Step>, b: seq<Step>, c: seq<Step>)
    ensures (a + b) + c == a + (b + c)
  {
  }

  /** Every queue stays within its capacity. */
  lemma QueuesStayBounded(states: seq<State>, steps: seq<Step>, i: nat)
    requires IsRun(states, steps) && i < |states|
    ensures var s := states[i];
            && |s.transport| <= CHANNEL_CAPACITY && |s.outgoing| <= CHANNEL_CAPACITY
            && |s.control| <= CHANNEL_CAPACITY
            && (forall c | c in s.writers :: |s.writers[c].queue| <= CHANNEL_CAPACITY)
  {
    LiveAlongRun(states, steps, i);
  }
}
