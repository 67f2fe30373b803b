/** Requests from the server to a client and the one-shot callbacks that wait
    for their answers (code-rs/app-server/src/outgoing_message.rs), and the
    approval handlers on top of them
    (code-rs/app-server/src/code_message_processor.rs). */
module Approvals {
  import opened Text
  import opened RequestRouting

  // ---------------------------------------------------------- callback table

  /** A one-shot channel.  `Closed`: its sender was dropped without a value. */
  datatype Slot = Waiting | Filled(value: string) | Closed

  /** What the table keeps for a pending request: the connection that may
      answer (any, if none) and the sending half of a one-shot channel. */
  datatype Callback = Callback(owner: Option<ConnectionId>, channel: nat)

  datatype Table = Table(nextRequestId: nat, callbacks: map<RequestId, Callback>, slots: seq<Slot>)

  /** May `requester` answer a request owned by `owner`? */
  predicate MayAnswer(owner: Option<ConnectionId>, requester: Option<ConnectionId>) {
    owner.None? || requester.None? || owner == requester
  }

  /** The answer of `requester` to `id` reaches a callback. */
  predicate Reaches(t: Table, requester: Option<ConnectionId>, id: RequestId) {
    id in t.callbacks && MayAnswer(t.callbacks[id].owner, requester)
  }

  function Register(t: Table, owner: Option<ConnectionId>): Table {
    Table(t.nextRequestId + 1,
          t.callbacks[IntegerId(t.nextRequestId) := Callback(owner, |t.slots|)],
          t.slots + [Waiting])
  }

  /** Takes the callback of `id` out and gives `slot` to its receiver. */
  function Resolve(t: Table, id: RequestId, slot: Slot): Table {
    if id !in t.callbacks then t
    else
      var channel := t.callbacks[id].channel;
      t.(callbacks := t.callbacks - {id},
         slots := if channel < |t.slots| then t.slots[channel := slot] else t.slots)
  }

  function Answer(t: Table, requester: Option<ConnectionId>, id: RequestId, slot: Slot): Table {
    if Reaches(t, requester, id) then Resolve(t, id, slot) else t
  }

  predicate OwnedBy(t: Table, id: RequestId, conn: ConnectionId) {
    id in t.callbacks && t.callbacks[id].owner == Some(conn)
  }

  ghost predicate FeedsOwnedBy(t: Table, channel: nat, conn: ConnectionId) {
    exists id :: OwnedBy(t, id, conn) && t.callbacks[id].channel == channel
  }

  /** Drops every callback of `conn`, and with it its sender. */
  ghost function ClearFor(t: Table, conn: ConnectionId): Table {
    t.(callbacks := map id | id in t.callbacks && !OwnedBy(t, id, conn) :: t.callbacks[id],
       slots := seq(|t.slots|, n requires 0 <= n < |t.slots| =>
                  if FeedsOwnedBy(t, n, conn) then Closed else t.slots[n]))
  }

  /** An answer from another connection than the owner changes nothing, and
      nothing else is ever ignored. */
  lemma OnlyTheOwnerResolves(t: Table, requester: Option<ConnectionId>, id: RequestId, slot: Slot)
    ensures Answer(t, requester, id, slot) == t
            <==> || id !in t.callbacks
                 || (t.callbacks[id].owner.Some? && requester.Some? && requester != t.callbacks[id].owner)
  {
    if Reaches(t, requester, id) {
      assert id !in Answer(t, requester, id, slot).callbacks;
    }
  }

  /** The sending side of the app server. */
  class OutgoingMessageSender {
    var nextRequestId: nat
    var callbacks: map<RequestId, Callback>
    /** The one-shot channels handed out so far. */
    var slots: seq<Slot>
    var sent: seq<Envelope>

    function State(): Table
      reads this
    {
      Table(nextRequestId, callbacks, slots)
    }

    constructor ()
      ensures State() == Table(0, map[], []) && sent == []
    {
      nextRequestId, callbacks, slots, sent := 0, map[], [], [];
    }

    /** `queued` says whether the outgoing channel takes the envelope. */
    method SendRequest(owner: Option<ConnectionId>, name: string, queued: bool) returns (receiver: nat)
      modifies this
      ensures receiver == |old(slots)|
      ensures var id := IntegerId(old(nextRequestId));
              && State() == (if queued then Register(old(State()), owner)
                             else Resolve(Register(old(State()), owner), id, Closed))
              && sent == old(sent) + (if !queued then []
                                      else if owner.Some? then [ToConnection(owner.value, Request(id, name))]
                                      else [Broadcast(Request(id, name))])
    {
      var id := IntegerId(nextRequestId);
      nextRequestId := nextRequestId + 1;
      receiver := |slots|;
      slots := slots + [Waiting];
      callbacks := callbacks[id := Callback(owner, receiver)];
      var message := Request(id, name);
      var envelope := if owner.Some? then ToConnection(owner.value, message) else Broadcast(message);
      if queued {
        sent := sent + [envelope];
      } else {
        callbacks := callbacks - {id};
        slots := slots[receiver := Closed];
      }
    }

    method TakeIfAccepted(requester: Option<ConnectionId>, id: RequestId, slot: Slot)
      modifies this
      ensures State() == Answer(old(State()), requester, id, slot) && sent == old(sent)
    {
      if id in callbacks && (callbacks[id].owner.None? || requester.None? || callbacks[id].owner == requester) {
        var channel := callbacks[id].channel;
        callbacks := callbacks - {id};
        if channel < |slots| {
          slots := slots[channel := slot];
        }
      }
    }

    method NotifyClientResponse(requester: Option<ConnectionId>, id: RequestId, value: string)
      modifies this
      ensures State() == Answer(old(State()), requester, id, Filled(value)) && sent == old(sent)
    {
      TakeIfAccepted(requester, id, Filled(value));
    }

    /** The error is only logged; the waiting handler sees a dropped sender. */
    method NotifyClientError(requester: Option<ConnectionId>, id: RequestId)
      modifies this
      ensures State() == Answer(old(State()), requester, id, Closed) && sent == old(sent)
    {
      TakeIfAccepted(requester, id, Closed);
    }

    /** `retain` visits the entries one by one, in any order. */
    method ClearCallbacksForConnection(conn: ConnectionId)
      modifies this
      ensures State() == ClearFor(old(State()), conn) && sent == old(sent)
    {
      ghost var before := State();
      var unvisited := callbacks.Keys;
      while unvisited != {}
        invariant unvisited <= callbacks.Keys <= before.callbacks.Keys
        invariant nextRequestId == before.nextRequestId && sent == old(sent)
        invariant forall id | id in before.callbacks ::
                    id in callbacks <==> id in unvisited || !OwnedBy(before, id, conn)
        invariant forall id | id in callbacks :: callbacks[id] == before.callbacks[id]
        invariant |slots| == |before.slots|
        invariant forall n | 0 <= n < |slots| ::
                    slots[n] == if exists id :: OwnedBy(before, id, conn) && id !in unvisited
                                                && before.callbacks[id].channel == n
                                then Closed else before.slots[n]
      {
        var id :| id in unvisited;
        unvisited := unvisited - {id};
        if callbacks[id].owner == Some(conn) {
          var channel := callbacks[id].channel;
          callbacks := callbacks - {id};
          if channel < |slots| {
            slots := slots[channel := Closed];
          }
        }
      }
      assert callbacks == ClearFor(before, conn).callbacks;
      assert slots == ClearFor(before, conn).slots;
    }
  }

  // --------------------------------------------------------------- decisions

  datatype WireDecision =
    | WireApproved
    | WireApprovedExecpolicyAmendment(amendment: string)
    | WireApprovedForSession
    | WireDenied
    | WireAbort

  datatype Decision = Approved | ApprovedForSession | Denied | Abort

  function FromWire(d: WireDecision): Decision {
    match d
    case WireApproved => Approved
    case WireApprovedExecpolicyAmendment(_) => Approved
    case WireApprovedForSession => ApprovedForSession
    case WireDenied => Denied
    case WireAbort => Abort
  }

  datatype Kind = Patch | Exec(turn: string) | Other

  /** What is submitted to the conversation.  `OtherResult` stands for what
      the dynamic-tool and user-input handlers submit. */
  datatype Op =
    | PatchApproval(id: string, decision: Decision)
    | ExecApproval(id: string, turn: string, decision: Decision)
    | OtherResult(id: string)

  /** Reads the decision out of an answer, if it has the expected shape. */
  type Reader = string -> Option<WireDecision>

  function DecisionFor(read: Reader, slot: Slot): Decision {
    if slot.Filled? && read(slot.value).Some? then FromWire(read(slot.value).value) else Denied
  }

  // ------------------------------------------------------------------- steps

  /** A request the server issued; the one with integer id `n` is entry `n`. */
  datatype Asked = Asked(kind: Kind, approvalId: string, owner: Option<ConnectionId>)

  datatype Submission = Submission(request: nat, op: Op)

  /** `sending`: requests whose envelope is still being queued.  `handlers`:
      tasks waiting for an answer.  `submitted` is what the conversations got. */
  datatype State = State(
    table: Table,
    asked: seq<Asked>,
    sending: set<nat>,
    handlers: set<nat>,
    submitted: seq<Submission>)

  const Start := State(Table(0, map[], []), [], {}, {}, [])

  datatype Step =
    | Ask(request: Asked)
    | SendDone(n: nat)
    | SendFailed(n: nat)
    | Respond(requester: Option<ConnectionId>, id: RequestId, value: string)
    | RespondError(requester: Option<ConnectionId>, id: RequestId)
    | Disconnect(conn: ConnectionId)
    | Handle(n: nat)

  predicate Enabled(s: State, step: Step) {
    match step
    case SendDone(n) => n in s.sending
    case SendFailed(n) => n in s.sending
    case Handle(n) => n in s.handlers && n < |s.table.slots| && !s.table.slots[n].Waiting? && n < |s.asked|
    case _ => true
  }

  function OpFor(read: Reader, request: Asked, slot: Slot): Op {
    match request.kind
    case Patch => PatchApproval(request.approvalId, DecisionFor(read, slot))
    case Exec(turn) => ExecApproval(request.approvalId, turn, DecisionFor(read, slot))
    case Other => OtherResult(request.approvalId)
  }

  ghost function Apply(read: Reader, s: State, step: Step): State
    requires Enabled(s, step)
  {
    match step
    case Ask(request) =>
      s.(table := Register(s.table, request.owner),
         asked := s.asked + [request],
         sending := s.sending + {s.table.nextRequestId})
    case SendDone(n) => s.(sending := s.sending - {n}, handlers := s.handlers + {n})
    case SendFailed(n) =>
      s.(table := Resolve(s.table, IntegerId(n), Closed), sending := s.sending - {n}, handlers := s.handlers + {n})
    case Respond(requester, id, value) => s.(table := Answer(s.table, requester, id, Filled(value)))
    case RespondError(requester, id) => s.(table := Answer(s.table, requester, id, Closed))
    case Disconnect(conn) => s.(table := ClearFor(s.table, conn))
    case Handle(n) =>
      s.(handlers := s.handlers - {n},
         submitted := s.submitted + [Submission(n, OpFor(read, s.asked[n], s.table.slots[n]))])
  }

  ghost predicate IsRun(read: Reader, states: seq<State>, steps: seq<Step>) {
    && |states| == |steps| + 1
    && states[0] == Start
    && forall i | 0 <= i < |steps| :: Enabled(states[i], steps[i]) && states[i + 1] == Apply(read, states[i], steps[i])
  }

  // --------------------------------------------------------------- invariant

  /** The pending callbacks are exactly the issued requests whose channel is
      still waiting. */
  ghost predicate TableInv(t: Table, asked: seq<Asked>) {
    && t.nextRequestId == |asked| == |t.slots|
    && (forall id | id in t.callbacks ::
          id.IntegerId? && 0 <= id.i < |asked| && t.callbacks[id] == Callback(asked[id.i].owner, id.i))
    && (forall n | 0 <= n < |asked| :: IntegerId(n) in t.callbacks <==> t.slots[n].Waiting?)
  }

  ghost predicate Submitted(s: State, n: nat) {
    exists k :: 0 <= k < |s.submitted| && s.submitted[k].request == n
  }

  ghost predicate TasksInv(s: State) {
    && s.sending !! s.handlers
    && (forall n | n in s.sending + s.handlers :: n < |s.asked| && !Submitted(s, n))
    && (forall n | 0 <= n < |s.asked| :: n in s.sending || n in s.handlers || Submitted(s, n))
    && (forall j, k | 0 <= j < k < |s.submitted| :: s.submitted[j].request != s.submitted[k].request)
  }

  ghost predicate SubmissionsInv(read: Reader, s: State) {
    forall k | 0 <= k < |s.submitted| ::
      var n := s.submitted[k].request;
      && n < |s.asked| == |s.table.slots| && !s.table.slots[n].Waiting?
      && s.submitted[k].op == OpFor(read, s.asked[n], s.table.slots[n])
  }

  ghost predicate Inv(read: Reader, s: State) {
    TableInv(s.table, s.asked) && TasksInv(s) && SubmissionsInv(read, s)
  }

  /** `u` is `t` with some pending requests resolved. */
  ghost predicate OnlyResolves(t: Table, u: Table) {
    && |u.slots| >= |t.slots|
    && forall n | 0 <= n < |t.slots| && !t.slots[n].Waiting? :: u.slots[n] == t.slots[n]
  }

  lemma ResolveKeepsTable(t: Table, asked: seq<Asked>, id: RequestId, slot: Slot)
    requires TableInv(t, asked) && !slot.Waiting?
    ensures TableInv(Resolve(t, id, slot), asked) && OnlyResolves(t, Resolve(t, id, slot))
  {
  }

  lemma ClearKeepsTable(t: Table, asked: seq<Asked>, conn: ConnectionId)
    requires TableInv(t, asked)
    ensures TableInv(ClearFor(t, conn), asked) && OnlyResolves(t, ClearFor(t, conn))
  {
    var u := ClearFor(t, conn);
    forall n | 0 <= n < |asked|
      ensures IntegerId(n) in u.callbacks <==> u.slots[n].Waiting?
      ensures !t.slots[n].Waiting? ==> u.slots[n] == t.slots[n]
    {
      assert FeedsOwnedBy(t, n, conn) <==> OwnedBy(t, IntegerId(n), conn);
    }
  }

  lemma StepKeepsTable(read: Reader, s: State, step: Step)
    requires TableInv(s.table, s.asked) && Enabled(s, step)
    ensures TableInv(Apply(read, s, step).table, Apply(read, s, step).asked)
    ensures OnlyResolves(s.table, Apply(read, s, step).table)
  {
    match step
    case SendFailed(n) => ResolveKeepsTable(s.table, s.asked, IntegerId(n), Closed);
    case Respond(_, id, value) => ResolveKeepsTable(s.table, s.asked, id, Filled(value));
    case RespondError(_, id) => ResolveKeepsTable(s.table, s.asked, id, Closed);
    case Disconnect(conn) => ClearKeepsTable(s.table, s.asked, conn);
    case _ =>
  }

  lemma StepKeepsTasks(read: Reader, s: State, step: Step)
    requires Inv(read, s) && Enabled(s, step)
    ensures TasksInv(Apply(read, s, step)) && SubmissionsInv(read, Apply(read, s, step))
  {
    StepKeepsTable(read, s, step);
    HandleKeepsTasks(read, s, step);
    OtherStepKeepsTasks(read, s, step);
    StepKeepsSubmissions(read, s, step);
    hide Apply, Enabled, TableInv, TasksInv, SubmissionsInv;
  }

  lemma HandleKeepsTasks(read: Reader, s: State, step: Step)
    requires TasksInv(s) && Enabled(s, step)
    ensures step.Handle? ==> TasksInv(Apply(read, s, step))
  {
    if step.Handle? {
      var t := Apply(read, s, step);
      hide OpFor;
      assert forall n :: Submitted(t, n) <==> Submitted(s, n) || n == step.n by {
        assert t.submitted[|s.submitted|].request == step.n;
        assert forall k | 0 <= k < |s.submitted| :: t.submitted[k] == s.submitted[k];
      }
    }
  }

  lemma OtherStepKeepsTasks(read: Reader, s: State, step: Step)
    requires TableInv(s.table, s.asked) && TasksInv(s) && SubmissionsInv(read, s) && Enabled(s, step)
    ensures !step.Handle? ==> TasksInv(Apply(read, s, step))
  {
    hide Register, Resolve, Answer, ClearFor, OpFor;
    var t := Apply(read, s, step);
    if !step.Handle? {
      assert forall n :: Submitted(t, n) <==> Submitted(s, n);
    }
  }

  lemma StepKeepsSubmissions(read: Reader, s: State, step: Step)
    requires Inv(read, s) && Enabled(s, step)
    requires TableInv(Apply(read, s, step).table, Apply(read, s, step).asked)
    requires OnlyResolves(s.table, Apply(read, s, step).table)
    ensures SubmissionsInv(read, Apply(read, s, step))
  {
    hide Register, Resolve, Answer, ClearFor, OpFor, TasksInv;
  }

  lemma {:induction false} InvAlongRun(read: Reader, states: seq<State>, steps: seq<Step>, i: nat)
    requires IsRun(read, states, steps) && i < |states|
    ensures Inv(read, states[i])
  {
    if i > 0 {
      InvAlongRun(read, states, steps, i - 1);
      StepKeepsTable(read, states[i - 1], steps[i - 1]);
      StepKeepsTasks(read, states[i - 1], steps[i - 1]);
    }
  }

  // ---------------------------------------------------------------- theorems

  /** Every issued id is in exactly one of pending, answered and cancelled, and
      nothing else is ever pending. */
  lemma PendingAnsweredOrCancelled(read: Reader, states: seq<State>, steps: seq<Step>, i: nat, id: RequestId)
    requires IsRun(read, states, steps) && i < |states|
    ensures var s := states[i];
            var issued := id.IntegerId? && 0 <= id.i < |s.asked|;
            && |s.table.slots| == |s.asked|
            && (id in s.table.callbacks <==> issued && !s.table.slots[id.i].Filled? && !s.table.slots[id.i].Closed?)
            && (id in s.table.callbacks ==> s.table.callbacks[id].owner == s.asked[id.i].owner)
  {
    InvAlongRun(read, states, steps, i);
    if id.IntegerId? && 0 <= id.i < |states[i].asked| {
      var n: nat := id.i;
      assert IntegerId(n) == id;
    }
  }

  /** Once answered or cancelled, a request stays so, with the same answer. */
  lemma {:induction false} FirstResolutionIsFinal(
      read: Reader, states: seq<State>, steps: seq<Step>, i: nat, j: nat, n: nat)
    requires IsRun(read, states, steps) && i <= j < |states|
    requires n < |states[i].asked| == |states[i].table.slots| && !states[i].table.slots[n].Waiting?
    ensures n < |states[j].asked| == |states[j].table.slots|
    ensures states[j].table.slots[n] == states[i].table.slots[n] && states[j].asked[n] == states[i].asked[n]
  {
    hide Apply, Enabled, TableInv, TasksInv, SubmissionsInv;
    if i < j {
      FirstResolutionIsFinal(read, states, steps, i, j - 1, n);
      InvAlongRun(read, states, steps, j - 1);
      StepKeepsResolution(read, states[j - 1], steps[j - 1], n);
    }
  }

  lemma StepKeepsResolution(read: Reader, s: State, step: Step, n: nat)
    requires TableInv(s.table, s.asked) && Enabled(s, step)
    requires n < |s.asked| == |s.table.slots| && !s.table.slots[n].Waiting?
    ensures var t := Apply(read, s, step);
            && n < |t.asked| == |t.table.slots|
            && t.table.slots[n] == s.table.slots[n] && t.asked[n] == s.asked[n]
  {
    StepKeepsTable(read, s, step);
    AskedGrows(read, s, step);
    hide Apply, Enabled;
  }

  lemma AskedGrows(read: Reader, s: State, step: Step)
    requires Enabled(s, step)
    ensures s.asked <= Apply(read, s, step).asked
  {
    hide Register, Resolve, Answer, ClearFor, OpFor;
  }

  /** Why the channel of request `n` is no longer waiting: the `j`-th step. */
  ghost predicate ResolvedBy(s: State, step: Step, n: nat, slot: Slot)
    requires n < |s.asked|
  {
    var owner := s.asked[n].owner;
    match step
    case Respond(requester, id, value) => id == IntegerId(n) && MayAnswer(owner, requester) && slot == Filled(value)
    case RespondError(requester, id) => id == IntegerId(n) && MayAnswer(owner, requester) && slot == Closed
    case Disconnect(conn) => owner == Some(conn) && slot == Closed
    case SendFailed(m) => m == n && slot == Closed
    case _ => false
  }

  lemma StepResolves(read: Reader, s: State, step: Step, n: nat)
    requires TableInv(s.table, s.asked) && Enabled(s, step) && n < |s.asked| && s.table.slots[n].Waiting?
    ensures var t := Apply(read, s, step);
            n < |t.table.slots| && (t.table.slots[n].Waiting? || ResolvedBy(s, step, n, t.table.slots[n]))
  {
    match step
    case Disconnect(conn) => assert FeedsOwnedBy(s.table, n, conn) <==> OwnedBy(s.table, IntegerId(n), conn);
    case _ =>
  }

  /** The step that resolved a request: an answer from its owner with exactly
      the value the handler gets, or a cancellation. */
  lemma {:induction false} WhatResolved(read: Reader, states: seq<State>, steps: seq<Step>, i: nat, n: nat)
      returns (j: nat)
    requires IsRun(read, states, steps) && i < |states|
    requires n < |states[i].asked| && n < |states[i].table.slots| && !states[i].table.slots[n].Waiting?
    ensures j < i && n < |states[j].asked| && n < |states[j].table.slots|
    ensures states[j].table.slots[n].Waiting? && states[j].asked[n] == states[i].asked[n]
    ensures ResolvedBy(states[j], steps[j], n, states[i].table.slots[n])
  {
    hide Apply, Enabled, TasksInv, SubmissionsInv, ResolvedBy;
    InvAlongRun(read, states, steps, i);
    assert i > 0;
    InvAlongRun(read, states, steps, i - 1);
    var before := states[i - 1];
    if n < |before.asked| && before.table.slots[n].Waiting? {
      StepResolves(read, before, steps[i - 1], n);
      AskedGrows(read, before, steps[i - 1]);
      j := i - 1;
    } else {
      FreshIsWaiting(read, before, steps[i - 1], n);
      j := WhatResolved(read, states, steps, i - 1, n);
      FirstResolutionIsFinal(read, states, steps, i - 1, i, n);
    }
  }

  lemma FreshIsWaiting(read: Reader, s: State, step: Step, n: nat)
    requires TableInv(s.table, s.asked) && Enabled(s, step)
    requires n < |Apply(read, s, step).asked| && n < |Apply(read, s, step).table.slots|
    requires !Apply(read, s, step).table.slots[n].Waiting?
    ensures n < |s.asked|
  {
  }

  /** The decision for an answer the handler read; none if there was no answer
      or it could not be read. */
  ghost predicate Decides(answer: Option<WireDecision>, decision: Decision) {
    && (decision.ApprovedForSession? <==> answer.Some? && answer.value.WireApprovedForSession?)
    && (decision.Approved? <==>
          answer.Some? && (answer.value.WireApproved? || answer.value.WireApprovedExecpolicyAmendment?))
    && (decision.Abort? <==> answer.Some? && answer.value.WireAbort?)
    && (decision.Denied? <==> answer.None? || answer.value.WireDenied?)
  }

  /** What a handler submits for a request, given the answer. */
  ghost predicate Submits(request: Asked, answer: Option<WireDecision>, op: Op) {
    && (request.kind.Patch? ==> op.PatchApproval? && op.id == request.approvalId && Decides(answer, op.decision))
    && (request.kind.Exec? ==>
          op.ExecApproval? && op.id == request.approvalId && op.turn == request.kind.turn
          && Decides(answer, op.decision))
    && (request.kind.Other? ==> op.OtherResult? && op.id == request.approvalId)
  }

  /** The connection of `requester` is the one request `n` was sent to, where
      both are known. */
  ghost predicate IsOwnersAnswer(request: Asked, requester: Option<ConnectionId>) {
    request.owner.Some? && requester.Some? ==> request.owner.value == requester.value
  }

  ghost predicate IsApproval(op: Op) {
    (op.PatchApproval? || op.ExecApproval?) && (op.decision.Approved? || op.decision.ApprovedForSession?)
  }

  /** Behind everything submitted is the one step that settled its request: an
      answer or an error of its owner, a disconnect of its owner or a failed
      send. The kind of the request says what is submitted, and the answer, if it
      could be read, which decision: each of the client's decisions has its own,
      and everything else is a denial. */
  lemma SubmissionFollowsTheAnswer(read: Reader, states: seq<State>, steps: seq<Step>, i: nat, k: nat)
      returns (j: nat)
    requires IsRun(read, states, steps) && i < |states| && k < |states[i].submitted|
    ensures j < i
    ensures var n := states[i].submitted[k].request;
            && n < |states[j].asked| && IntegerId(n) in states[j].table.callbacks
            && var request, answer :=
                 states[j].asked[n], if steps[j].Respond? then read(steps[j].value) else None;
               && Submits(request, answer, states[i].submitted[k].op)
               && match steps[j]
                  case Respond(requester, id, _) => id == IntegerId(n) && IsOwnersAnswer(request, requester)
                  case RespondError(requester, id) => id == IntegerId(n) && IsOwnersAnswer(request, requester)
                  case Disconnect(conn) => request.owner == Some(conn)
                  case SendFailed(m) => m == n
                  case _ => false
  {
    hide Apply, TasksInv, OnlyResolves;
    InvAlongRun(read, states, steps, i);
    j := WhatResolved(read, states, steps, i, states[i].submitted[k].request);
    InvAlongRun(read, states, steps, j);
  }

  /** Approvals fail closed: an approving decision is submitted only when the
      owner of that very request answered it, while it was pending, with a
      readable approving decision, and then that decision is submitted under
      the request's own approval id. */
  lemma ApprovalNeedsOwnersApproval(read: Reader, states: seq<State>, steps: seq<Step>, i: nat, k: nat)
      returns (j: nat)
    requires IsRun(read, states, steps) && i < |states| && k < |states[i].submitted|
    requires IsApproval(states[i].submitted[k].op)
    ensures j < i && steps[j].Respond?
    ensures var n := states[i].submitted[k].request;
            && n < |states[j].asked| && steps[j].id == IntegerId(n) && IntegerId(n) in states[j].table.callbacks
            && IsOwnersAnswer(states[j].asked[n], steps[j].requester)
            && Submits(states[j].asked[n], read(steps[j].value), states[i].submitted[k].op)
            && read(steps[j].value).Some?
            && !read(steps[j].value).value.WireDenied? && !read(steps[j].value).value.WireAbort?
  {
    j := SubmissionFollowsTheAnswer(read, states, steps, i, k);
  }

  /** The step that resolved the request decides: a readable answer is
      honoured; an error from the client, a disconnect, a failed send or an
      answer that cannot be read submits `Denied`. */
  lemma FirstReadableAnswerOrDenied(read: Reader, states: seq<State>, steps: seq<Step>, i: nat, j: nat, k: nat)
    requires IsRun(read, states, steps) && j < i < |states| && k < |states[i].submitted|
    requires !states[i].submitted[k].op.OtherResult?
    requires var n := states[i].submitted[k].request;
             && n < |states[j].asked| && n < |states[j].table.slots| && states[j].table.slots[n].Waiting?
             && n < |states[j + 1].table.slots| && !states[j + 1].table.slots[n].Waiting?
    ensures Decides(if steps[j].Respond? then read(steps[j].value) else None, states[i].submitted[k].op.decision)
  {
    var n := states[i].submitted[k].request;
    InvAlongRun(read, states, steps, i);
    InvAlongRun(read, states, steps, j);
    InvAlongRun(read, states, steps, j + 1);
    StepResolves(read, states[j], steps[j], n);
    assert states[j + 1] == Apply(read, states[j], steps[j]);
    FirstResolutionIsFinal(read, states, steps, j + 1, i, n);
  }

  /** No request is decided twice, and a resolved one whose sending is over
      is either decided or about to be. */
  lemma DecidedOnceAndNeverForgotten(read: Reader, states: seq<State>, steps: seq<Step>, i: nat, n: nat)
    requires IsRun(read, states, steps) && i < |states| && n < |states[i].asked|
    ensures forall j, k | 0 <= j < k < |states[i].submitted| ::
              !(states[i].submitted[j].request == states[i].submitted[k].request == n)
    ensures n < |states[i].table.slots|
    ensures n !in states[i].sending && !states[i].table.slots[n].Waiting? ==>
              (Submitted(states[i], n) <==> !Enabled(states[i], Handle(n)))
    ensures Submitted(states[i], n) ==> n !in states[i].sending && !states[i].table.slots[n].Waiting?
  {
    InvAlongRun(read, states, steps, i);
  }

  /** A disconnect leaves no callback of that connection behind and touches
      no other. */
  lemma DisconnectCancelsExactlyItsOwn(read: Reader, states: seq<State>, steps: seq<Step>, i: nat, n: nat)
    requires IsRun(read, states, steps) && i < |steps| && steps[i].Disconnect? && n < |states[i].asked|
    ensures n < |states[i].table.slots| && n < |states[i + 1].table.slots|
    ensures states[i + 1].table.slots[n] ==
            if states[i].table.slots[n].Waiting? && states[i].asked[n].owner == Some(steps[i].conn) then Closed
            else states[i].table.slots[n]
  {
    InvAlongRun(read, states, steps, i);
    var t, conn := states[i].table, steps[i].conn;
    assert states[i + 1] == Apply(read, states[i], steps[i]);
    assert FeedsOwnedBy(t, n, conn) <==> OwnedBy(t, IntegerId(n), conn);
  }
}
