/** Routing one outgoing envelope to the connections it is for
    (`route_outgoing_envelope` in code-rs/app-server/src/transport.rs), and its
    agreement with the router's steps in `AppServer`. */
module OutboundRouting {
  import opened Text
  import opened RequestRouting
  import opened AppServer

  /** What the router knows of a connection.  Only WebSocket connections can be
      told to disconnect. */
  datatype Outbound = Outbound(initialized: bool, optedOut: set<string>, canDisconnect: bool)

  predicate SkipsNotification(state: Outbound, message: Message) {
    message.Notification? && message.name in state.optedOut
  }

  /** The connections an envelope is for. */
  function Recipients(connections: map<ConnectionId, Outbound>, envelope: Envelope): set<ConnectionId> {
    set c | c in connections && !SkipsNotification(connections[c], envelope.message)
            && (if envelope.ToConnection? then c == envelope.conn else connections[c].initialized)
  }

  /** How the wait for a full stdio writer ends: it takes `more + 1` messages, or
      it takes some and stops. */
  datatype Wait = Takes(more: nat) | Stops(taken: nat)

  function AtMost(n: nat, limit: nat): nat {
    if n <= limit then n else limit
  }

  /** The writer once it has taken up to `n` messages from its queue. */
  function Drained(writer: Writer, n: nat): (w: Writer)
    ensures w.Sent() == writer.Sent() && w.open == writer.open && |w.queue| <= |writer.queue|
  {
    var k := AtMost(n, |writer.queue|);
    assert writer.queue == writer.queue[..k] + writer.queue[k..];
    writer.(queue := writer.queue[k..], taken := writer.taken + writer.queue[..k])
  }

  /** The router waits for an open stdio writer that is full. */
  predicate IsAwaited(state: Outbound, writer: Writer) {
    writer.open && |writer.queue| >= CHANNEL_CAPACITY && !state.canDisconnect
  }

  /** The writer as the router finds it, after any wait. */
  function AfterWait(state: Outbound, writer: Writer, wait: Wait): (w: Writer)
    ensures w.Sent() == writer.Sent()
    ensures |writer.queue| <= CHANNEL_CAPACITY && IsAwaited(state, writer) && wait.Takes? ==>
              |w.queue| < CHANNEL_CAPACITY
  {
    if !IsAwaited(state, writer) then writer
    else match wait
      case Takes(more) => Drained(writer, more + 1)
      case Stops(taken) => Drained(writer, taken).(open := false)
  }

  /** The writer takes one more message. */
  predicate Accepts(state: Outbound, writer: Writer, wait: Wait) {
    writer.open && (|writer.queue| < CHANNEL_CAPACITY || (!state.canDisconnect && wait.Takes?))
  }

  function Push(writer: Writer, message: Message): Writer {
    writer.(queue := writer.queue + [message])
  }

  ghost predicate NoDuplicates(order: seq<ConnectionId>) {
    forall i, j | 0 <= i < j < |order| :: order[i] != order[j]
  }

  class OutboundConnections {
    var connections: map<ConnectionId, Outbound>
    /** The queues behind the writers. */
    var writers: map<ConnectionId, Writer>

    ghost predicate Valid()
      reads this
    {
      connections.Keys <= writers.Keys && QueuesFit(writers)
    }

    /** `is_connection_write_failed`: a closed writer fails, a full one is told to
        disconnect or waited for. The writer's log grows by the message exactly
        if it did not fail. */
    method WriteFails(conn: ConnectionId, message: Message, wait: Wait) returns (failed: bool)
      requires Valid() && conn in connections
      modifies this
      ensures Valid() && connections == old(connections)
      ensures failed <==> !Accepts(connections[conn], old(writers)[conn], wait)
      ensures writers[conn].Sent() == old(writers)[conn].Sent() + if failed then [] else [message]
      ensures var found := AfterWait(connections[conn], old(writers)[conn], wait);
              writers == old(writers)[conn := if failed then found else Push(found, message)]
    {
      var writer := writers[conn];
      var hadRoom := |writer.queue| < CHANNEL_CAPACITY;
      if !writer.open || (!hadRoom && connections[conn].canDisconnect) {
        assert writers == writers[conn := writer];
        return true;
      }
      if !hadRoom {
        writer := AfterWait(connections[conn], writer, wait);
        if !writer.open {
          writers := writers[conn := writer];
          return true;
        }
      }
      writers := writers[conn := writer.(queue := writer.queue + [message])];
      return false;
    }

    /** Delivers the message to the targets whose writer takes it, forgets the
        others and reports them. */
    method DeliverTo(targets: set<ConnectionId>, message: Message, waits: ConnectionId -> Wait)
      returns (disconnected: seq<ConnectionId>)
      requires Valid() && targets <= connections.Keys
      modifies this
      ensures Valid() && NoDuplicates(disconnected)
      ensures forall c :: c in disconnected <==>
                c in targets && !Accepts(old(connections)[c], old(writers)[c], waits(c))
      ensures Without(old(connections), connections, disconnected)
      ensures Delivered(Waited(old(connections), old(writers), targets, waits), writers, targets, disconnected, message)
    {
      hide Accepts, Push, Delivered, AfterWait, Waited, QueuesFit, Without, NoDuplicates;
      NothingDelivered(connections, writers, waits, message);
      NobodyGone(connections);
      disconnected := [];
      var left := targets;
      ghost var done: set<ConnectionId> := {};
      ghost var known, before := connections, writers;
      while left != {}
        invariant Valid() && NoDuplicates(disconnected) && writers.Keys == before.Keys
        invariant done == targets - left && left <= targets
        invariant forall c :: c in disconnected <==> c in done && !Accepts(known[c], before[c], waits(c))
        invariant Without(known, connections, disconnected)
        invariant Delivered(Waited(known, before, done, waits), writers, done, disconnected, message)
      {
        var c :| c in left;
        DeliveredMore(known, before, writers, done, disconnected, message, waits, c);
        GoneMore(known, connections, disconnected, c);
        left := left - {c};
        done := done + {c};
        var failed := WriteFails(c, message, waits(c));
        if failed {
          connections := connections - {c};
          disconnected := disconnected + [c];
        }
      }
      assert done == targets;
    }

    /** A message for one connection is dropped when the connection is gone or
        opted out; a broadcast goes to the initialized connections. */
    method RouteOutgoingEnvelope(envelope: Envelope, waits: ConnectionId -> Wait)
      returns (disconnected: seq<ConnectionId>)
      requires Valid()
      modifies this
      ensures Valid() && NoDuplicates(disconnected)
      ensures forall c :: c in disconnected <==>
                c in Recipients(old(connections), envelope)
                && !Accepts(old(connections)[c], old(writers)[c], waits(c))
      ensures Without(old(connections), connections, disconnected)
      ensures var targets := Recipients(old(connections), envelope);
              Delivered(Waited(old(connections), old(writers), targets, waits), writers, targets, disconnected,
                        envelope.message)
      ensures ServesEveryone(envelope, old(connections), connections, old(writers), writers, waits)
    {
      var targets: set<ConnectionId> := {};
      match envelope {
        case ToConnection(conn, message) =>
          if conn in connections && !SkipsNotification(connections[conn], message) {
            targets := {conn};
          }
        case Broadcast(message) =>
          targets :=
            set c | c in connections && connections[c].initialized && !SkipsNotification(connections[c], message);
      }
      assert targets == Recipients(connections, envelope);
      hide Recipients, Accepts, Delivered, Without, Waited;
      disconnected := DeliverTo(targets, envelope.message, waits);
      hide ServesEveryone;
      DeliveredServes(envelope, old(connections), connections, old(writers), writers, disconnected, waits);
    }
  }

  /** What one client notices of an envelope: a message for one goes to that one,
      a broadcast to the initialized ones, and a notification to no one that opted
      out of it. Who was meant and has a writer that takes the message, at once or
      after a wait, gets it; who was meant and has none is forgotten; nobody else
      is affected. */
  ghost predicate IsServed(
      envelope: Envelope, c: ConnectionId, state: Outbound, before: Writer, after: Writer, stays: bool, wait: Wait) {
    var message := envelope.message;
    var meant :=
      && (if envelope.ToConnection? then c == envelope.conn else state.initialized)
      && (message.Notification? ==> message.name !in state.optedOut);
    var works := before.open && (|before.queue| < 128 || (!state.canDisconnect && wait.Takes?));
    && after.Sent() == before.Sent() + (if meant && works then [message] else [])
    && (stays <==> !meant || works)
  }

  ghost predicate ServesEveryone(
      envelope: Envelope, known: map<ConnectionId, Outbound>, left: map<ConnectionId, Outbound>,
      before: map<ConnectionId, Writer>, after: map<ConnectionId, Writer>, waits: ConnectionId -> Wait)
    requires known.Keys <= before.Keys
  {
    && after.Keys == before.Keys && left.Keys <= known.Keys
    && (forall c | c in before && c !in known :: after[c] == before[c])
    && (forall c | c in known :: IsServed(envelope, c, known[c], before[c], after[c], c in left, waits(c)))
    && (forall c | c in left :: left[c] == known[c])
  }

  lemma OneIsServed(
      envelope: Envelope, c: ConnectionId, known: map<ConnectionId, Outbound>, before: Writer, wait: Wait)
    requires c in known
    ensures var found := AfterWait(known[c], before, wait);
            && (c in Recipients(known, envelope) && Accepts(known[c], before, wait) ==>
                  IsServed(envelope, c, known[c], before, Push(found, envelope.message), true, wait))
            && (c in Recipients(known, envelope) && !Accepts(known[c], before, wait) ==>
                  IsServed(envelope, c, known[c], before, found, false, wait))
            && (c !in Recipients(known, envelope) ==> IsServed(envelope, c, known[c], before, before, true, wait))
  {
    PushIsSent(AfterWait(known[c], before, wait), envelope.message);
    hide AfterWait, Push;
  }

  lemma DeliveredServes(
      envelope: Envelope, known: map<ConnectionId, Outbound>, left: map<ConnectionId, Outbound>,
      before: map<ConnectionId, Writer>, after: map<ConnectionId, Writer>, gone: seq<ConnectionId>,
      waits: ConnectionId -> Wait)
    requires known.Keys <= before.Keys && Without(known, left, gone)
    requires var targets := Recipients(known, envelope);
             && (forall c :: c in gone <==> c in targets && !Accepts(known[c], before[c], waits(c)))
             && Delivered(Waited(known, before, targets, waits), after, targets, gone, envelope.message)
    ensures ServesEveryone(envelope, known, left, before, after, waits)
  {
    hide AfterWait, Push, Accepts, IsServed;
    LeftOfKnown(known, left, gone);
    RecipientsAreKnown(known, envelope);
    hide Recipients, Without;
    forall c | c in known
      ensures IsServed(envelope, c, known[c], before[c], after[c], c in left, waits(c))
    {
      OneIsServed(envelope, c, known, before[c], waits(c));
    }
  }

  lemma RecipientsAreKnown(known: map<ConnectionId, Outbound>, envelope: Envelope)
    ensures Recipients(known, envelope) <= known.Keys
  {
  }

  lemma PushIsSent(writer: Writer, message: Message)
    ensures Push(writer, message).Sent() == writer.Sent() + [message]
  {
  }

  lemma LeftOfKnown(
      known: map<ConnectionId, Outbound>, left: map<ConnectionId, Outbound>, gone: seq<ConnectionId>)
    requires Without(known, left, gone)
    ensures left.Keys <= known.Keys
    ensures forall c | c in known :: (c in left <==> c !in gone) && (c in left ==> left[c] == known[c])
  {
  }

  /** No queue holds more than a channel can. */
  ghost predicate QueuesFit(writers: map<ConnectionId, Writer>) {
    forall c | c in writers :: |writers[c].queue| <= CHANNEL_CAPACITY
  }

  /** The writers as the router finds those of its targets. */
  ghost function Waited(
      connections: map<ConnectionId, Outbound>, writers: map<ConnectionId, Writer>,
      targets: set<ConnectionId>, waits: ConnectionId -> Wait): map<ConnectionId, Writer> {
    map c | c in writers ::
      if c in targets && c in connections then AfterWait(connections[c], writers[c], waits(c)) else writers[c]
  }

  /** `after` is `before` without the connections in `gone`. */
  ghost predicate Without(
      before: map<ConnectionId, Outbound>, after: map<ConnectionId, Outbound>, gone: seq<ConnectionId>) {
    && (forall c :: c in after <==> c in before && c !in gone)
    && (forall c | c in after :: after[c] == before[c])
  }

  /** `message` was put once into the queue of each target not in `gone`, and
      no other queue changed. */
  ghost predicate Delivered(
      before: map<ConnectionId, Writer>, after: map<ConnectionId, Writer>,
      targets: set<ConnectionId>, gone: seq<ConnectionId>, message: Message) {
    && after.Keys == before.Keys
    && forall c | c in before ::
         after[c] == if c in targets && c !in gone then Push(before[c], message) else before[c]
  }

  lemma NothingDelivered(
      connections: map<ConnectionId, Outbound>, writers: map<ConnectionId, Writer>,
      waits: ConnectionId -> Wait, message: Message)
    ensures Delivered(Waited(connections, writers, {}, waits), writers, {}, [], message)
  {
  }

  lemma NobodyGone(connections: map<ConnectionId, Outbound>)
    ensures Without(connections, connections, []) && NoDuplicates([])
  {
  }

  lemma GoneMore(
      before: map<ConnectionId, Outbound>, after: map<ConnectionId, Outbound>, gone: seq<ConnectionId>, c: ConnectionId)
    requires Without(before, after, gone) && c !in gone
    ensures c in before ==> c in after && after[c] == before[c]
    ensures Without(before, after - {c}, gone + [c])
    ensures NoDuplicates(gone) ==> NoDuplicates(gone + [c])
  {
  }

  /** One more target: it took the message, or it goes too. */
  lemma DeliveredMore(
      connections: map<ConnectionId, Outbound>, before: map<ConnectionId, Writer>, after: map<ConnectionId, Writer>,
      done: set<ConnectionId>, gone: seq<ConnectionId>, message: Message, waits: ConnectionId -> Wait, c: ConnectionId)
    requires Delivered(Waited(connections, before, done, waits), after, done, gone, message)
    requires c in before && c in connections && c !in done && c !in gone
    ensures c in after && after[c] == before[c]
    ensures var found := AfterWait(connections[c], before[c], waits(c));
            var waited := Waited(connections, before, done + {c}, waits);
            && Delivered(waited, after[c := Push(found, message)], done + {c}, gone, message)
            && Delivered(waited, after[c := found], done + {c}, gone + [c], message)
  {
    hide Push, AfterWait;
  }

  // ------------------------------------------------- agreement with the steps

  /** What the router of `AppServer` knows of a connection. */
  function KnownConnections(s: State): map<ConnectionId, Outbound> {
    map c | c in s.outbound ::
      Outbound(c in s.initializedFlags, if c in s.optOutFlags then s.optOutFlags[c] else {}, s.mode.WebSocket?)
  }

  lemma TargetsAreRecipients(s: State, envelope: Envelope)
    ensures Targets(s, envelope) == Recipients(KnownConnections(s), envelope)
  {
  }

  /** The remaining delivery steps of one message, with nothing in between. */
  ghost function DeliverRest(s: State): State
    requires s.mode.WebSocket? && s.router.Delivering?
    decreases |s.router.targets|
  {
    if s.router.targets == [] then s
    else
      var t := ApplyRouterDeliver(s);
      StepShape(s);
      DeliverRest(t)
  }

  /** `t` is `s` after its next target. */
  ghost predicate IsNext(s: State, t: State)
    requires s.router.Delivering? && s.router.targets != []
  {
    var c := s.router.targets[0];
    && t.mode == s.mode && t.initializedFlags == s.initializedFlags && t.optOutFlags == s.optOutFlags
    && t.router == Delivering(s.router.message, s.router.targets[1..], s.router.origin)
    && t.outbound == (if c in s.outbound && !WriterAccepts(s, c) then s.outbound - {c} else s.outbound)
    && t.pendingClosed ==
       (if c in s.outbound && !WriterAccepts(s, c) then s.pendingClosed + [c] else s.pendingClosed)
    && t.writers ==
       (if c in s.outbound && WriterAccepts(s, c)
        then s.writers[c := Push(s.writers[c], s.router.message)] else s.writers)
  }

  lemma StepShape(s: State)
    requires s.mode.WebSocket? && s.router.Delivering? && s.router.targets != []
    ensures Enabled(s, RouterDeliver) && IsNext(s, ApplyRouterDeliver(s))
  {
    var c := s.router.targets[0];
    if c in s.outbound && WriterAccepts(s, c) {
      DeliveryShape(s);
    } else if c in s.outbound {
      DisconnectShape(s);
    } else {
      assert IsNext(s, SkipTarget(s));
    }
    hide IsNext, SkipTarget, DeliverTo, DisconnectTarget, WriterAccepts, SetFateOf;
  }

  lemma DeliveryShape(s: State)
    requires s.router.Delivering? && s.router.targets != []
    requires s.router.targets[0] in s.outbound && WriterAccepts(s, s.router.targets[0])
    ensures IsNext(s, DeliverTo(s, s.router.targets[0]))
  {
    hide SetFateOf;
  }

  lemma DisconnectShape(s: State)
    requires s.router.Delivering? && s.router.targets != []
    requires s.router.targets[0] in s.outbound && !WriterAccepts(s, s.router.targets[0])
    ensures IsNext(s, DisconnectTarget(s, s.router.targets[0]))
  {
    hide SetFateOf;
  }

  /** The targets whose writer does not take the message, in order. */
  ghost function Failing(s: State, targets: seq<ConnectionId>): seq<ConnectionId> {
    if targets == [] then []
    else (if WriterAccepts(s, targets[0]) then [] else [targets[0]]) + Failing(s, targets[1..])
  }

  lemma {:induction false} FailingMembers(s: State, targets: seq<ConnectionId>)
    ensures forall c :: c in Failing(s, targets) <==> c in targets && !WriterAccepts(s, c)
  {
    if targets != [] {
      FailingMembers(s, targets[1..]);
      assert targets == [targets[0]] + targets[1..];
    }
  }

  lemma {:induction false} FailingOf(s: State, t: State, targets: seq<ConnectionId>)
    requires forall c | c in targets :: WriterAccepts(s, c) == WriterAccepts(t, c)
    ensures Failing(s, targets) == Failing(t, targets)
  {
    hide WriterAccepts;
    if targets != [] {
      FailingOf(s, t, targets[1..]);
    }
  }

  /** One more target: it took the message, or it goes too; nobody else is
      affected. */
  ghost predicate IsHandled(s: State, t: State, c: ConnectionId)
    requires s.router.Delivering?
  {
    && t.pendingClosed == s.pendingClosed + (if WriterAccepts(s, c) then [] else [c])
    && (forall d :: d in t.outbound <==> d in s.outbound && (d != c || WriterAccepts(s, c)))
    && t.writers.Keys == s.writers.Keys && c in s.writers
    && t.writers[c] == (if WriterAccepts(s, c) then Push(s.writers[c], s.router.message) else s.writers[c])
    && (forall d | d in s.writers && d != c :: t.writers[d] == s.writers[d])
    && (forall d | d != c :: WriterAccepts(t, d) == WriterAccepts(s, d))
    && t.initializedFlags == s.initializedFlags && t.optOutFlags == s.optOutFlags && t.mode == s.mode
  }

  lemma TargetIsHandled(s: State)
    requires s.mode.WebSocket? && s.router.Delivering? && s.router.targets != []
    requires s.router.targets[0] in s.outbound && s.router.targets[0] in s.writers
    ensures var t := ApplyRouterDeliver(s);
            && t.router == Delivering(s.router.message, s.router.targets[1..], s.router.origin)
            && IsHandled(s, t, s.router.targets[0])
  {
    StepShape(s);
    hide ApplyRouterDeliver, Push;
  }

  /** `t` is `s` after `targets` were handled, one after the other. */
  ghost predicate AreHandled(s: State, t: State, targets: seq<ConnectionId>)
    requires s.router.Delivering?
  {
    && t.pendingClosed == s.pendingClosed + Failing(s, targets)
    && (forall c :: c in t.outbound <==> c in s.outbound && c !in Failing(s, targets))
    && Delivered(s.writers, t.writers, (set c | c in targets), Failing(s, targets), s.router.message)
    && t.initializedFlags == s.initializedFlags && t.optOutFlags == s.optOutFlags && t.mode == s.mode
  }

  lemma {:induction false} StepsDeliver(s: State)
    requires s.mode.WebSocket? && s.router.Delivering? && NoDuplicates(s.router.targets)
    requires forall c | c in s.router.targets :: c in s.outbound && c in s.writers
    ensures AreHandled(s, DeliverRest(s), s.router.targets)
    ensures DeliverRest(s).router == Delivering(s.router.message, [], s.router.origin)
    decreases |s.router.targets|
  {
    hide ApplyRouterDeliver, WriterAccepts, Push, Failing, DeliverRest, IsNext;
    var targets := s.router.targets;
    DeliverRestStep(s);
    if targets == [] {
      NoneHandled(s);
    } else {
      var c, rest, t := targets[0], targets[1..], ApplyRouterDeliver(s);
      TargetIsHandled(s);
      StillThere(s, t, c, rest);
      assert targets == [c] + rest;
      hide IsHandled, AreHandled, NoDuplicates;
      StepsDeliver(t);
      OneMoreHandled(s, t, DeliverRest(t), c, rest);
    }
  }

  lemma NoneHandled(s: State)
    requires s.router.Delivering?
    ensures AreHandled(s, s, [])
  {
    FailingCons(s, 0, []);
    assert (set c: ConnectionId | c in []) == {};
  }

  lemma StillThere(s: State, t: State, c: ConnectionId, rest: seq<ConnectionId>)
    requires s.router.Delivering? && IsHandled(s, t, c) && NoDuplicates([c] + rest)
    requires forall d | d in [c] + rest :: d in s.outbound && d in s.writers
    ensures c !in rest && NoDuplicates(rest)
    ensures forall d | d in rest :: d in t.outbound && d in t.writers
  {
    var all := [c] + rest;
    assert all[1..] == rest;
    forall i, j | 0 <= i < j < |rest|
      ensures rest[i] != rest[j]
    {
      assert all[i + 1] != all[j + 1];
    }
    forall i | 0 <= i < |rest|
      ensures rest[i] != c && rest[i] in t.outbound && rest[i] in t.writers
    {
      assert all[0] != all[i + 1] && all[i + 1] in all;
    }
  }

  lemma OneMoreHandled(s: State, t: State, u: State, c: ConnectionId, rest: seq<ConnectionId>)
    requires s.router.Delivering? && t.router.Delivering? && t.router.message == s.router.message
    requires IsHandled(s, t, c) && c !in rest && AreHandled(t, u, rest)
    ensures AreHandled(s, u, [c] + rest)
  {
    hide WriterAccepts, Failing, Delivered, Push;
    FailingOf(s, t, rest);
    FailingCons(s, c, rest);
    FailingMembers(s, rest);
    DeliveredOneMore(s, t, u.writers, c, rest);
  }

  /** What the method above promises of the connections in `targets`. */
  ghost predicate IsRouted(
      s: State, t: State, targets: set<ConnectionId>, message: Message, disconnected: seq<ConnectionId>,
      waits: ConnectionId -> Wait)
    requires targets <= s.outbound <= s.writers.Keys
  {
    var known := KnownConnections(s);
    && t.pendingClosed == s.pendingClosed + disconnected && NoDuplicates(disconnected)
    && (forall c :: c in disconnected <==> c in targets && !Accepts(known[c], s.writers[c], waits(c)))
    && Without(known, KnownConnections(t), disconnected)
    && Delivered(Waited(known, s.writers, targets, waits), t.writers, targets, disconnected, message)
  }

  /** Uninterrupted, the router's steps do with a rewritten envelope exactly what
      the method above does with it in WebSocket mode: the recipients whose
      writer takes the message get it once, the others are forgotten and queued
      for closing, each once. */
  lemma StepsRouteTheEnvelope(s: State, order: seq<ConnectionId>, waits: ConnectionId -> Wait)
      returns (disconnected: seq<ConnectionId>)
    requires s.mode.WebSocket? && s.outbound <= s.writers.Keys && Enabled(s, RouterTargets(order))
    ensures Recipients(KnownConnections(s), s.router.envelope) <= s.outbound
    ensures var envelope, t := s.router.envelope, DeliverRest(ApplyRouterTargets(s, order));
            && t.router == Delivering(envelope.message, [], s.router.origin)
            && IsRouted(s, t, Recipients(KnownConnections(s), envelope), envelope.message, disconnected, waits)
            && ServesEveryone(envelope, KnownConnections(s), KnownConnections(t), s.writers, t.writers, waits)
  {
    hide Enabled, ApplyRouterTargets, IsRouted, AreHandled, DeliverRest;
    hide Recipients, NoDuplicates, KnownConnections, Failing;
    TargetsAreChosen(s, order);
    var u, targets := ApplyRouterTargets(s, order), set c | c in order;
    assert targets == Recipients(KnownConnections(s), s.router.envelope);
    assert u.mode.WebSocket? && targets <= u.outbound <= u.writers.Keys;
    assert forall c | c in order :: c in targets;
    hide SameConnections;
    StepsDeliver(u);
    HandledAreRouted(u, DeliverRest(u), order, waits);
    disconnected := Failing(u, order);
    RoutedFromTheSame(s, u, DeliverRest(u), targets, disconnected, waits);
    hide ServesEveryone;
    RoutedServes(s, DeliverRest(u), disconnected, waits);
  }

  lemma RoutedServes(s: State, t: State, disconnected: seq<ConnectionId>, waits: ConnectionId -> Wait)
    requires s.router.Rewritten? && s.outbound <= s.writers.Keys
    requires var targets := Recipients(KnownConnections(s), s.router.envelope);
             targets <= s.outbound && IsRouted(s, t, targets, s.router.envelope.message, disconnected, waits)
    ensures ServesEveryone(s.router.envelope, KnownConnections(s), KnownConnections(t), s.writers, t.writers, waits)
  {
    hide Recipients, Accepts, Without, Delivered, Waited, ServesEveryone;
    DeliveredServes(s.router.envelope, KnownConnections(s), KnownConnections(t), s.writers, t.writers, disconnected,
                    waits);
  }

  lemma TargetsAreChosen(s: State, order: seq<ConnectionId>)
    requires Enabled(s, RouterTargets(order))
    ensures s.router.Rewritten?
    ensures var targets, u := Recipients(KnownConnections(s), s.router.envelope), ApplyRouterTargets(s, order);
            && NoDuplicates(order) && (set c | c in order) == targets && targets <= s.outbound
            && SameConnections(s, u) && u.router == Delivering(s.router.envelope.message, order, s.router.origin)
  {
    TargetsAreRecipients(s, s.router.envelope);
  }

  ghost predicate SameConnections(s: State, u: State) {
    && u.mode == s.mode && u.outbound == s.outbound && u.writers == s.writers && u.pendingClosed == s.pendingClosed
    && u.initializedFlags == s.initializedFlags && u.optOutFlags == s.optOutFlags
  }

  lemma RoutedFromTheSame(
      s: State, u: State, t: State, targets: set<ConnectionId>, disconnected: seq<ConnectionId>,
      waits: ConnectionId -> Wait)
    requires SameConnections(s, u) && u.router.Delivering? && targets <= u.outbound <= u.writers.Keys
    requires IsRouted(u, t, targets, u.router.message, disconnected, waits)
    ensures IsRouted(s, t, targets, u.router.message, disconnected, waits)
  {
    assert KnownConnections(s) == KnownConnections(u);
    hide KnownConnections, Accepts, Without, Delivered, Waited, NoDuplicates;
  }

  lemma HandledAreRouted(s: State, t: State, targets: seq<ConnectionId>, waits: ConnectionId -> Wait)
    requires s.mode.WebSocket? && s.router.Delivering? && NoDuplicates(targets) && AreHandled(s, t, targets)
    requires (set c | c in targets) <= s.outbound <= s.writers.Keys
    ensures IsRouted(s, t, (set c | c in targets), s.router.message, Failing(s, targets), waits)
  {
    FailingMembers(s, targets);
    FailingOnce(s, targets);
    WebSocketsAreNotAwaited(s, (set c | c in targets), waits);
    HandledAreForgotten(s, t, targets);
    hide KnownConnections, Accepts, Without, Delivered, Waited, NoDuplicates, Failing, WriterAccepts;
  }

  lemma HandledAreForgotten(s: State, t: State, targets: seq<ConnectionId>)
    requires s.router.Delivering? && AreHandled(s, t, targets)
    ensures Without(KnownConnections(s), KnownConnections(t), Failing(s, targets))
    ensures KnownConnections(s).Keys == s.outbound
  {
    hide Failing, Delivered;
  }

  lemma {:induction false} FailingOnce(s: State, targets: seq<ConnectionId>)
    requires NoDuplicates(targets)
    ensures NoDuplicates(Failing(s, targets))
  {
    hide WriterAccepts;
    if targets != [] {
      var c, rest := targets[0], targets[1..];
      assert targets == [c] + rest;
      forall i, j | 0 <= i < j < |rest|
        ensures rest[i] != rest[j]
      {
        assert targets[i + 1] != targets[j + 1];
      }
      FailingOnce(s, rest);
      FailingMembers(s, rest);
      assert c !in rest;
    }
  }

  lemma DeliverRestStep(s: State)
    requires s.mode.WebSocket? && s.router.Delivering?
    ensures s.router.targets == [] ==> DeliverRest(s) == s
    ensures s.router.targets != [] ==>
              var t := ApplyRouterDeliver(s);
              t.mode.WebSocket? && t.router.Delivering? && DeliverRest(s) == DeliverRest(t)
  {
    if s.router.targets != [] {
      StepShape(s);
      hide ApplyRouterDeliver;
    }
  }

  lemma FailingCons(s: State, c: ConnectionId, rest: seq<ConnectionId>)
    ensures Failing(s, []) == []
    ensures Failing(s, [c] + rest) == (if WriterAccepts(s, c) then [] else [c]) + Failing(s, rest)
  {
  }

  lemma DeliveredOneMore(s: State, t: State, after: map<ConnectionId, Writer>, c: ConnectionId, rest: seq<ConnectionId>)
    requires s.router.Delivering? && c !in rest && c in s.writers && t.writers.Keys == s.writers.Keys
    requires t.writers[c] == if WriterAccepts(s, c) then Push(s.writers[c], s.router.message) else s.writers[c]
    requires forall d | d in s.writers && d != c :: t.writers[d] == s.writers[d]
    requires Delivered(t.writers, after, (set d | d in rest), Failing(s, rest), s.router.message)
    ensures Delivered(s.writers, after, (set d | d in [c] + rest), Failing(s, [c] + rest), s.router.message)
  {
    hide WriterAccepts, Push;
    FailingMembers(s, rest);
    FailingMembers(s, [c] + rest);
  }

  /** No WebSocket connection is ever waited for. */
  lemma WebSocketsAreNotAwaited(s: State, targets: set<ConnectionId>, waits: ConnectionId -> Wait)
    requires s.mode.WebSocket?
    ensures Waited(KnownConnections(s), s.writers, targets, waits) == s.writers
    ensures forall c | c in s.outbound && c in s.writers ::
              Accepts(KnownConnections(s)[c], s.writers[c], waits(c)) <==> WriterAccepts(s, c)
  {
    hide Drained;
  }

  // -------------------------------------------- agreement with the steps: stdio

  /** `t` is where `steps` lead from `s`. */
  ghost predicate Leads(s: State, steps: seq<Step>, t: State)
    decreases |steps|
  {
    if steps == [] then s == t else Enabled(s, steps[0]) && Leads(Apply(s, steps[0]), steps[1..], t)
  }

  lemma {:induction false} LeadsOn(s: State, first: seq<Step>, t: State, second: seq<Step>, u: State)
    requires Leads(s, first, t) && Leads(t, second, u)
    ensures Leads(s, first + second, u)
    decreases |first|
  {
    hide Enabled, Apply;
    if first == [] {
      assert first + second == second;
    } else {
      assert (first + second)[1..] == first[1..] + second;
      LeadsOn(Apply(s, first[0]), first[1..], t, second, u);
    }
  }

  lemma NothingLeads(s: State)
    ensures Leads(s, [], s)
  {
  }

  lemma OneStepLeads(s: State, step: Step)
    requires Enabled(s, step)
    ensures Leads(s, [step], Apply(s, step))
  {
    hide Enabled, Apply;
    NothingLeads(Apply(s, step));
  }

  ghost function Repeat(step: Step, n: nat): seq<Step> {
    if n == 0 then [] else [step] + Repeat(step, n - 1)
  }

  function WithWriter(s: State, c: ConnectionId, writer: Writer): State {
    s.(writers := s.writers[c := writer])
  }

  lemma WithSameWriter(s: State, c: ConnectionId)
    requires c in s.writers
    ensures WithWriter(s, c, Drained(s.writers[c], 0)) == s
  {
    var w := s.writers[c];
    assert Drained(w, 0).taken == w.taken;
    assert s.writers[c := w] == s.writers;
  }

  lemma DrainOne(s: State, c: ConnectionId)
    requires c in s.writers && s.writers[c].queue != []
    ensures Enabled(s, DrainWriter(c)) && Apply(s, DrainWriter(c)) == WithWriter(s, c, Drained(s.writers[c], 1))
  {
    var queue := s.writers[c].queue;
    assert queue[..1] == [queue[0]];
  }

  lemma CloseOne(s: State, c: ConnectionId, writer: Writer)
    requires c in s.writers
    ensures var t := WithWriter(s, c, writer);
            && Enabled(t, CloseWriter(c))
            && Apply(t, CloseWriter(c)) == WithWriter(s, c, writer.(open := false))
  {
    assert s.writers[c := writer][c := writer.(open := false)] == s.writers[c := writer.(open := false)];
  }

  lemma DrainedTwice(writer: Writer, n: nat)
    requires 0 < n <= |writer.queue|
    ensures Drained(Drained(writer, 1), n - 1) == Drained(writer, n)
  {
  }

  lemma {:induction false} DrainsLead(s: State, c: ConnectionId, n: nat)
    requires c in s.writers && n <= |s.writers[c].queue|
    ensures Leads(s, Repeat(DrainWriter(c), n), WithWriter(s, c, Drained(s.writers[c], n)))
    decreases n
  {
    var writer := s.writers[c];
    if n == 0 {
      WithSameWriter(s, c);
    } else {
      var t := WithWriter(s, c, Drained(writer, 1));
      assert |Drained(writer, 1).queue| == |writer.queue| - 1;
      DrainOne(s, c);
      DrainedTwice(writer, n);
      hide Enabled, Apply, Drained;
      DrainsLead(t, c, n - 1);
      assert WithWriter(t, c, Drained(writer, n)) == WithWriter(s, c, Drained(writer, n));
      assert ([DrainWriter(c)] + Repeat(DrainWriter(c), n - 1))[1..] == Repeat(DrainWriter(c), n - 1);
    }
  }

  lemma DrainedLeads(s: State, c: ConnectionId, n: nat)
    requires c in s.writers
    ensures Leads(s, Repeat(DrainWriter(c), AtMost(n, |s.writers[c].queue|)),
                  WithWriter(s, c, Drained(s.writers[c], n)))
  {
    var k := AtMost(n, |s.writers[c].queue|);
    assert Drained(s.writers[c], k) == Drained(s.writers[c], n);
    DrainsLead(s, c, k);
    hide Leads, Repeat, Drained;
  }

  lemma StoppedLeads(s: State, c: ConnectionId, n: nat)
    requires c in s.writers
    ensures Leads(s, Repeat(DrainWriter(c), AtMost(n, |s.writers[c].queue|)) + [CloseWriter(c)],
                  WithWriter(s, c, Drained(s.writers[c], n).(open := false)))
  {
    hide Leads, Repeat, Drained, Enabled, Apply, WithWriter;
    var w, drains := Drained(s.writers[c], n), Repeat(DrainWriter(c), AtMost(n, |s.writers[c].queue|));
    var t := WithWriter(s, c, w);
    DrainedLeads(s, c, n);
    CloseOne(s, c, w);
    OneStepLeads(t, CloseWriter(c));
    LeadsOn(s, drains, t, [CloseWriter(c)], Apply(t, CloseWriter(c)));
  }

  /** What the stdio writer does while the router waits for it. */
  ghost function WaitSteps(s: State, c: ConnectionId, wait: Wait): seq<Step>
    requires c in s.writers
  {
    var queued := |s.writers[c].queue|;
    if !WriterBlocks(s, c) then []
    else match wait
      case Takes(more) => Repeat(DrainWriter(c), AtMost(more + 1, queued))
      case Stops(taken) => Repeat(DrainWriter(c), AtMost(taken, queued)) + [CloseWriter(c)]
  }

  lemma KnownStdio(s: State, c: ConnectionId)
    requires s.mode.Stdio? && c in s.outbound && c in s.writers
    ensures c in KnownConnections(s) && !KnownConnections(s)[c].canDisconnect
    ensures IsAwaited(KnownConnections(s)[c], s.writers[c]) <==> WriterBlocks(s, c)
  {
  }

  lemma WaitLeads(s: State, c: ConnectionId, wait: Wait)
    requires s.mode.Stdio? && c in s.outbound && c in s.writers
    ensures c in KnownConnections(s)
    ensures Leads(s, WaitSteps(s, c, wait), WithWriter(s, c, AfterWait(KnownConnections(s)[c], s.writers[c], wait)))
  {
    KnownStdio(s, c);
    WithSameWriter(s, c);
    assert Drained(s.writers[c], 0) == s.writers[c] by {
      assert Drained(s.writers[c], 0).taken == s.writers[c].taken;
    }
    NothingLeads(s);
    hide Leads, Repeat, Drained, WithWriter, KnownConnections, WriterBlocks, IsAwaited;
    match wait {
      case Takes(more) => DrainedLeads(s, c, more + 1);
      case Stops(taken) => StoppedLeads(s, c, taken);
    }
  }

  /** In stdio mode the delivery to the one connection has, whatever the writer
      does while the router waits, exactly the effect of the method above. The
      router does wait: while the writer is full and open its step is not
      enabled. */
  lemma StdioStepsRouteTheEnvelope(s: State, c: ConnectionId, wait: Wait)
    requires s.mode.Stdio? && s.router.Delivering? && s.router.targets == [c]
    requires c in s.outbound && c in s.writers && QueuesFit(s.writers)
    ensures var known, message := KnownConnections(s)[c], s.router.message;
            var found := AfterWait(known, s.writers[c], wait);
            var ready := WithWriter(s, c, found);
            && (IsAwaited(known, s.writers[c]) <==> !Enabled(s, RouterDeliver))
            && Enabled(ready, RouterDeliver)
            && var t := Apply(ready, RouterDeliver);
               && Leads(s, WaitSteps(s, c, wait) + [RouterDeliver], t)
               && t.router == Delivering(message, [], s.router.origin)
               && if Accepts(known, s.writers[c], wait)
                  then t.writers == s.writers[c := Push(found, message)] && t.outbound == s.outbound
                       && t.pendingClosed == s.pendingClosed
                  else t.writers == s.writers[c := found] && t.outbound == s.outbound - {c}
                       && t.pendingClosed == s.pendingClosed + [c]
  {
    hide Leads, WaitSteps, KnownConnections, Enabled, Apply, AfterWait, Accepts, WithWriter;
    hide Push, IsAwaited, WriterBlocks, QueuesFit, WriterAccepts;
    KnownStdio(s, c);
    WaitsWhileBlocked(s, c);
    WaitMakesReady(s, c, wait);
    var found := AfterWait(KnownConnections(s)[c], s.writers[c], wait);
    var ready := WithWriter(s, c, found);
    WaitLeads(s, c, wait);
    StdioDelivers(ready, c);
    OneStepLeads(ready, RouterDeliver);
    LeadsOn(s, WaitSteps(s, c, wait), ready, [RouterDeliver], Apply(ready, RouterDeliver));
    assert s.writers[c := found][c := Push(found, s.router.message)] == s.writers[c := Push(found, s.router.message)];
  }

  lemma WaitsWhileBlocked(s: State, c: ConnectionId)
    requires s.router.Delivering? && s.router.targets == [c]
    ensures WriterBlocks(s, c) <==> !Enabled(s, RouterDeliver)
  {
    hide WriterBlocks;
  }

  /** After the wait the writer has room or has stopped. */
  lemma WaitMakesReady(s: State, c: ConnectionId, wait: Wait)
    requires s.mode.Stdio? && c in s.outbound && c in s.writers && QueuesFit(s.writers)
    ensures c in KnownConnections(s)
    ensures var known := KnownConnections(s)[c];
            var found := AfterWait(known, s.writers[c], wait);
            var ready := WithWriter(s, c, found);
            && !WriterBlocks(ready, c) && ready.mode == s.mode && ready.router == s.router
            && ready.outbound == s.outbound && ready.pendingClosed == s.pendingClosed
            && ready.writers == s.writers[c := found]
            && (WriterAccepts(ready, c) <==> Accepts(known, s.writers[c], wait))
  {
    KnownStdio(s, c);
    hide KnownConnections, Drained;
  }

  lemma StdioDelivers(s: State, c: ConnectionId)
    requires s.mode.Stdio? && s.router.Delivering? && s.router.targets == [c] && c in s.outbound && c in s.writers
    requires !WriterBlocks(s, c)
    ensures Enabled(s, RouterDeliver)
    ensures var t, message := Apply(s, RouterDeliver), s.router.message;
            && t.router == Delivering(message, [], s.router.origin)
            && if WriterAccepts(s, c)
               then t.writers == s.writers[c := Push(s.writers[c], message)] && t.outbound == s.outbound
                    && t.pendingClosed == s.pendingClosed
               else t.writers == s.writers && t.outbound == s.outbound - {c} && t.pendingClosed == s.pendingClosed + [c]
  {
  }
}
