/** What a connection's writer is given, compared with what was read from the
    connection. */
module AppServerDelivery {
  import opened Text
  import opened RequestRouting
  import opened AppServer
  import opened AppServerFrames
  import opened AppServerAnswers

  /** The ids of the answers among `messages`, in order. */
  ghost function AnswerIds(messages: seq<Message>): seq<RequestId> {
    if messages == [] then []
    else
      var last := messages[|messages| - 1];
      AnswerIds(messages[..|messages| - 1]) + if last.IsAnswer() then [last.id] else []
  }

  /** The ids logged for connection `c`, in order. */
  ghost function LoggedIds(answers: seq<Answer>, c: ConnectionId): seq<RequestId> {
    if answers == [] then []
    else
      var last := answers[|answers| - 1];
      LoggedIds(answers[..|answers| - 1], c) + if last.conn == c then [last.id] else []
  }

  lemma AnswerIdsPush(messages: seq<Message>, m: Message)
    ensures AnswerIds(messages + [m]) == AnswerIds(messages) + if m.IsAnswer() then [m.id] else []
  {
  }

  lemma LoggedIdsPush(answers: seq<Answer>, a: Answer, c: ConnectionId)
    ensures LoggedIds(answers + [a], c) == LoggedIds(answers, c) + if a.conn == c then [a.id] else []
  {
  }

  /** Every answer a writer was ever given is in the log, in order, and nothing
      else is logged for it. */
  ghost predicate LogIsExact(writers: map<ConnectionId, Writer>, answers: seq<Answer>) {
    forall c | c in writers :: AnswerIds(writers[c].Sent()) == LoggedIds(answers, c)
  }

  /** Nothing is logged for connections that do not exist yet. */
  ghost predicate LogKnown(writers: map<ConnectionId, Writer>, answers: seq<Answer>) {
    forall i | 0 <= i < |answers| :: answers[i].conn in writers
  }

  ghost predicate DeliveryInv(s: State) {
    && LogIsExact(s.writers, s.answers)
    && LogKnown(s.writers, s.answers)
    && forall c | c in s.writers :: c < s.nextConnectionId
  }

  lemma {:induction false} LogOfUnknownIsEmpty(
      writers: map<ConnectionId, Writer>, answers: seq<Answer>, c: ConnectionId)
    requires LogKnown(writers, answers) && c !in writers
    ensures LoggedIds(answers, c) == []
  {
    if answers != [] {
      LogOfUnknownIsEmpty(writers, answers[..|answers| - 1], c);
    }
  }

  lemma PushKeepsLog(s: State, c: ConnectionId, m: Message, answers: seq<Answer>, r: nat)
    requires DeliveryInv(s) && c in s.writers
    requires answers == if m.IsAnswer() then s.answers + [Answer(c, m.id, r)] else s.answers
    ensures LogIsExact(PushWriter(s, c, m), answers) && LogKnown(PushWriter(s, c, m), answers)
  {
    hide AnswerIds, LoggedIds;
    var writers := PushWriter(s, c, m);
    SentPush(s, c, m);
    AnswerIdsPush(s.writers[c].Sent(), m);
    forall d | d in writers
      ensures AnswerIds(writers[d].Sent()) == LoggedIds(answers, d)
    {
      assert AnswerIds(s.writers[d].Sent()) == LoggedIds(s.answers, d);
      LoggedIdsPush(s.answers, Answer(c, if m.IsAnswer() then m.id else IntegerId(0), r), d);
      NothingMore(AnswerIds(s.writers[d].Sent()));
    }
  }

  lemma NothingMore(ids: seq<RequestId>)
    ensures ids + [] == ids
  {
  }

  lemma SentPush(s: State, c: ConnectionId, m: Message)
    requires c in s.writers
    ensures PushWriter(s, c, m)[c].Sent() == s.writers[c].Sent() + [m]
    ensures forall d | d in s.writers && d != c :: PushWriter(s, c, m)[d] == s.writers[d]
    ensures PushWriter(s, c, m).Keys == s.writers.Keys
  {
  }

  lemma DrainKeeps(s: State, c: ConnectionId)
    requires DeliveryInv(s) && Enabled(s, DrainWriter(c))
    ensures DeliveryInv(Apply(s, DrainWriter(c)))
  {
    var t := Apply(s, DrainWriter(c));
    assert t.writers[c].Sent() == s.writers[c].Sent();
  }

  lemma AcceptKeeps(s: State)
    requires DeliveryInv(s)
    ensures DeliveryInv(ApplyAccept(s))
  {
    LogOfUnknownIsEmpty(s.writers, s.answers, s.nextConnectionId);
  }

  lemma RefuseKeeps(s: State, c: ConnectionId, id: RequestId)
    requires DeliveryInv(s) && c in s.writers
    ensures DeliveryInv(RefuseRequest(s, c, id))
  {
    var r := |s.received|;
    PushKeepsLog(s, c, Error(id, "Server overloaded; retry later."), s.answers + [Answer(c, id, r)], r);
    hide LogIsExact, LogKnown;
  }

  lemma DeliverToKeeps(s: State)
    requires DeliveryInv(s) && RouterHolds(s.router, s.received)
    requires s.router.Delivering? && s.router.targets != [] && s.router.targets[0] in s.writers
    ensures DeliveryInv(DeliverTo(s, s.router.targets[0]))
  {
    var m, origin := s.router.message, s.router.origin;
    PushKeepsLog(s, s.router.targets[0], m, DeliverTo(s, s.router.targets[0]).answers,
                 if origin.Some? then origin.value else 0);
    hide LogIsExact, LogKnown;
  }

  /** Steps that touch neither writers nor the log. */
  lemma SameWriters(s: State, t: State)
    requires DeliveryInv(s) && t.writers == s.writers && t.answers == s.answers
    requires t.nextConnectionId == s.nextConnectionId
    ensures DeliveryInv(t)
  {
  }

  lemma CloseWriterKeeps(s: State, c: ConnectionId)
    requires DeliveryInv(s) && Enabled(s, CloseWriter(c))
    ensures DeliveryInv(Apply(s, CloseWriter(c)))
  {
  }

  lemma ReadRequestKeepsLog(s: State, c: ConnectionId, id: RequestId)
    requires DeliveryInv(s) && Enabled(s, ReadRequest(c, id))
    ensures DeliveryInv(ApplyReadRequest(s, c, id))
  {
    RefuseKeeps(s, c, id);
    SameWriters(s, EnqueueRequest(s, c, id));
    SameWriters(s, LoseRequest(s, c, id, Unheard, true));
    SameWriters(s, LoseRequest(s, c, id, Refused(false), !s.writers[c].open));
    hide DeliveryInv, EnqueueRequest, LoseRequest, RefuseRequest, Enabled;
  }

  lemma RouterDeliverKeepsLog(s: State)
    requires DeliveryInv(s) && AnswerInv(s) && Enabled(s, RouterDeliver)
    ensures DeliveryInv(ApplyRouterDeliver(s))
  {
    SameWriters(s, SkipTarget(s));
    SameWriters(s, DisconnectTarget(s, s.router.targets[0]));
    if s.router.targets[0] in s.writers {
      DeliverToKeeps(s);
    }
    hide DeliveryInv, AnswerInv, SkipTarget, DisconnectTarget, DeliverTo, Enabled;
  }

  lemma ConnectionStepKeepsLog(s: State, step: Step)
    requires DeliveryInv(s) && Enabled(s, step) && step.IsConnectionStep()
    ensures DeliveryInv(Apply(s, step))
  {
    hide DeliveryInv, ApplyReadRequest, ApplyRouter, ApplyProcessor, ApplyEmit;
    if step.Accept? {
      AcceptKeeps(s);
    } else if step.DrainWriter? {
      DrainKeeps(s, step.conn);
    } else if step.CloseWriter? {
      CloseWriterKeeps(s, step.conn);
    } else if step.ReadRequest? {
      ReadRequestKeepsLog(s, step.conn, step.id);
    } else {
      SameWriters(s, Apply(s, step));
    }
  }

  lemma RouterStepKeepsLog(s: State, step: Step)
    requires DeliveryInv(s) && AnswerInv(s) && Enabled(s, step) && step.IsRouterStep()
    ensures DeliveryInv(ApplyRouter(s, step))
  {
    hide DeliveryInv, AnswerInv, ApplyRouterDeliver;
    if step.RouterDeliver? {
      RouterDeliverKeepsLog(s);
    } else {
      SameWriters(s, ApplyRouter(s, step));
    }
  }

  lemma ProcessorStepKeepsLog(s: State, step: Step)
    requires DeliveryInv(s) && Enabled(s, step)
    requires !step.IsConnectionStep() && !step.IsRouterStep() && !step.Emit? && !step.HandlerSent?
    ensures DeliveryInv(ApplyProcessor(s, step))
  {
    hide DeliveryInv, ApplyProcessor, Enabled;
    ProcessorStaysInside(s, step);
    SameWriters(s, ApplyProcessor(s, step));
  }

  lemma StepKeepsLog(s: State, step: Step)
    requires DeliveryInv(s) && AnswerInv(s) && Enabled(s, step)
    ensures DeliveryInv(Apply(s, step))
  {
    hide DeliveryInv, AnswerInv, ApplyConnection, ApplyRouter, ApplyProcessor;
    if step.IsConnectionStep() {
      ConnectionStepKeepsLog(s, step);
    } else if step.IsRouterStep() {
      RouterStepKeepsLog(s, step);
    } else if step.Emit? || step.HandlerSent? {
      SameWriters(s, Apply(s, step));
    } else {
      ProcessorStepKeepsLog(s, step);
    }
  }

  lemma {:induction false} LogAlongRun(states: seq<State>, steps: seq<Step>, i: nat)
    requires IsRun(states, steps) && i < |states|
    ensures DeliveryInv(states[i]) && AnswerInv(states[i])
  {
    AlongRun(states, steps, i);
    if i > 0 {
      LogAlongRun(states, steps, i - 1);
      StepKeepsLog(states[i - 1], steps[i - 1]);
    }
  }

  // ---------------------------------------------------------------- theorems

  /** The requests with id `id` read from connection `c`. */
  ghost function RequestsFrom(received: seq<Received>, c: ConnectionId, id: RequestId): set<nat> {
    set r: nat | r < |received| && received[r].conn == c && received[r].id == id
  }

  lemma {:induction false} Subcardinality(a: set<nat>, b: set<nat>)
    requires a <= b
    ensures |a| <= |b|
  {
    if a != {} {
      var x :| x in a;
      Subcardinality(a - {x}, b - {x});
    }
  }

  /** The reads behind the logged answers to `c` with id `id`. */
  ghost function LoggedReads(answers: seq<Answer>, c: ConnectionId, id: RequestId): set<nat> {
    if answers == [] then {}
    else
      var last := answers[|answers| - 1];
      LoggedReads(answers[..|answers| - 1], c, id) + if last.conn == c && last.id == id then {last.read} else {}
  }

  lemma {:induction false} LoggedReadsAreLogged(answers: seq<Answer>, c: ConnectionId, id: RequestId, r: nat)
    returns (k: nat)
    requires r in LoggedReads(answers, c, id)
    ensures k < |answers| && answers[k] == Answer(c, id, r)
  {
    var n := |answers| - 1;
    if answers[n] == Answer(c, id, r) {
      k := n;
    } else {
      k := LoggedReadsAreLogged(answers[..n], c, id, r);
    }
  }

  lemma LoggedReadsPush(answers: seq<Answer>, a: Answer, c: ConnectionId, id: RequestId)
    ensures LoggedReads(answers + [a], c, id)
            == LoggedReads(answers, c, id) + if a.conn == c && a.id == id then {a.read} else {}
  {
    assert (answers + [a])[..|answers|] == answers;
  }

  lemma NothingLogged(c: ConnectionId, id: RequestId)
    ensures LoggedReads([], c, id) == {} && LoggedIds([], c) == []
  {
  }

  /** Those reads are all different, so they are as many as the answers. */
  lemma {:induction false} LoggedReadsCount(answers: seq<Answer>, c: ConnectionId, id: RequestId)
    requires forall i, j | 0 <= i < j < |answers| :: answers[i].read != answers[j].read
    ensures |LoggedReads(answers, c, id)| == multiset(LoggedIds(answers, c))[id]
  {
    hide LoggedReads, LoggedIds;
    if answers == [] {
      NothingLogged(c, id);
    } else {
      var n := |answers| - 1;
      var rest, last := answers[..n], answers[n];
      LoggedReadsCount(rest, c, id);
      if last.read in LoggedReads(rest, c, id) {
        var k := LoggedReadsAreLogged(rest, c, id, last.read);
      }
      assert answers == rest + [last];
      LoggedReadsPush(rest, last, c, id);
      LoggedIdsPush(rest, last, c);
      CountOneMore(LoggedIds(rest, c), last.id, id);
      NothingMore(LoggedIds(rest, c));
    }
  }

  lemma CountOneMore(ids: seq<RequestId>, last: RequestId, id: RequestId)
    ensures multiset(ids + [last])[id] == multiset(ids)[id] + if last == id then 1 else 0
  {
  }
}
