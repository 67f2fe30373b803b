/** Outgoing messages and the table that maps the internal id of a client
    request back to the connection and id it came from
    (code-rs/app-server/src/lib.rs and outgoing_message.rs). */
module RequestRouting {
  import opened Text

  type ConnectionId = nat

  datatype RequestId = IntegerId(i: int) | StringId(s: string)

  /** JSON-RPC messages from the server; bodies are kept as serialised text. */
  datatype Message =
    | Request(id: RequestId, name: string)
    | Notification(name: string)
    | Response(id: RequestId, body: string)
    | Error(id: RequestId, body: string)
  {
    predicate IsAnswer() {
      Response? || Error?
    }

    function WithId(newId: RequestId): (m: Message)
      requires IsAnswer()
      ensures m.IsAnswer() && m.id == newId && m.body == body && m.Response? == Response?
    {
      if Response? then Response(newId, body) else Error(newId, body)
    }
  }

  datatype Envelope =
    | ToConnection(conn: ConnectionId, message: Message)
    | Broadcast(message: Message)

  /** Where the answer to a request goes. `read` is history: the position of
      the request among all requests read from clients. */
  datatype Route = Route(conn: ConnectionId, original: RequestId, read: nat)

  type RouteTable = map<RequestId, Route>

  const INTERNAL_REQUEST_ID_PREFIX := "__code_internal_request__"

  function InternalId(conn: ConnectionId, ordinal: nat): RequestId {
    StringId(INTERNAL_REQUEST_ID_PREFIX + Decimal(conn) + ":" + Decimal(ordinal))
  }

  predicate IsInternalRequestId(id: RequestId) {
    id.StringId? && HasPrefix(id.s, INTERNAL_REQUEST_ID_PREFIX)
  }

  lemma ColonSplitIsUnique(a: string, x: string, b: string, y: string)
    requires forall i | 0 <= i < |a| :: IsDigit(a[i])
    requires forall i | 0 <= i < |b| :: IsDigit(b[i])
    requires a + ":" + x == b + ":" + y
    ensures a == b && x == y
  {
    var t := a + ":" + x;
    assert t[|a|] == ':' && t[|b|] == ':';
    assert a == t[..|a|] && b == t[..|b|];
    assert x == t[|a| + 1..] && y == t[|b| + 1..];
  }

  /** No two accepted requests share an internal id. */
  lemma InternalIdInjective(c: ConnectionId, m: nat, d: ConnectionId, n: nat)
    ensures InternalId(c, m) == InternalId(d, n) <==> c == d && m == n
    ensures IsInternalRequestId(InternalId(c, m))
  {
    var p := INTERNAL_REQUEST_ID_PREFIX;
    var left, right := Decimal(c) + ":" + Decimal(m), Decimal(d) + ":" + Decimal(n);
    assert InternalId(c, m).s == p + left && InternalId(d, n).s == p + right;
    if InternalId(c, m) == InternalId(d, n) {
      assert left == (p + left)[|p|..] && right == (p + right)[|p|..];
      ColonSplitIsUnique(Decimal(c), Decimal(m), Decimal(d), Decimal(n));
      DecimalInjective(c, d);
      DecimalInjective(m, n);
    }
  }

  // ------------------------------------------------------ rewriting answers

  /** `rewrite_response_routing`: the envelope to route (if any) and the table
      left behind. */
  function Rewrite(envelope: Envelope, routes: RouteTable): (Option<Envelope>, RouteTable) {
    if envelope.Broadcast? && envelope.message.IsAnswer() then
      var id := envelope.message.id;
      if id in routes then
        (Some(ToConnection(routes[id].conn, envelope.message.WithId(routes[id].original))), routes - {id})
      else if IsInternalRequestId(id) then (None, routes)
      else (Some(envelope), routes)
    else (Some(envelope), routes)
  }

  function WithoutRoutesOf(routes: RouteTable, conn: ConnectionId): RouteTable {
    map k | k in routes && routes[k].conn != conn :: routes[k]
  }

  predicate HasRoutesOf(routes: RouteTable, conn: ConnectionId) {
    exists k :: k in routes && routes[k].conn == conn
  }

  lemma WithoutRoutesOfIsNoOpIffNone(routes: RouteTable, conn: ConnectionId)
    ensures WithoutRoutesOf(routes, conn) == routes <==> !HasRoutesOf(routes, conn)
    ensures !HasRoutesOf(WithoutRoutesOf(routes, conn), conn)
  {
  }

  /** Every route was registered under an ordinal below `next`, as the
      processor's counter guarantees. */
  ghost predicate OrdinalsBelow(routes: RouteTable, next: nat) {
    forall k | k in routes :: exists n: nat :: n < next && k == InternalId(routes[k].conn, n)
  }

  lemma NextOrdinalIsUnused(routes: RouteTable, conn: ConnectionId, next: nat)
    requires OrdinalsBelow(routes, next)
    ensures InternalId(conn, next) !in routes
  {
    var id := InternalId(conn, next);
    if id in routes {
      var n: nat :| n < next && id == InternalId(routes[id].conn, n);
      InternalIdInjective(conn, next, routes[id].conn, n);
    }
  }

  /** A handler answers the request under its internal id: the answer goes to
      the connection the request came from, under the id it came with, and the
      table is as it was before the request. Answers to other requests go where
      they went before it was registered. */
  lemma AnswerFindsItsWayBack(
      routes: RouteTable, conn: ConnectionId, original: RequestId, next: nat, read: nat, answer: Message)
    requires OrdinalsBelow(routes, next) && answer.IsAnswer()
    ensures var id := InternalId(conn, next);
            var registered := routes[id := Route(conn, original, read)];
            && (answer.id == id ==>
                  Rewrite(Broadcast(answer), registered) == (Some(ToConnection(conn, answer.WithId(original))), routes))
            && (answer.id != id ==>
                  Rewrite(Broadcast(answer), registered).0 == Rewrite(Broadcast(answer), routes).0)
  {
    NextOrdinalIsUnused(routes, conn, next);
    var id := InternalId(conn, next);
    assert routes[id := Route(conn, original, read)] - {id} == routes;
  }

  /** Once a connection's routes are gone its answers reach nobody, and every
      other answer goes where it went; the table left does not depend on which
      of the two came first. */
  lemma RemovedRoutesAreDropped(routes: RouteTable, conn: ConnectionId, answer: Message)
    requires answer.IsAnswer() && IsInternalRequestId(answer.id)
    ensures var (before, left) := Rewrite(Broadcast(answer), routes);
            var (after, remaining) := Rewrite(Broadcast(answer), WithoutRoutesOf(routes, conn));
            && after ==
               (if before.Some? && before.value.ToConnection? && before.value.conn == conn then None else before)
            && remaining == WithoutRoutesOf(left, conn)
  {
    var id := answer.id;
    if id in routes && routes[id].conn != conn {
      assert WithoutRoutesOf(routes, conn) - {id} == WithoutRoutesOf(routes - {id}, conn);
    } else if id in routes {
      assert WithoutRoutesOf(routes - {id}, conn) == WithoutRoutesOf(routes, conn);
    }
  }

  /** The mutex-guarded table the processor and the router share. */
  class RequestRoutes {
    var routes: RouteTable

    constructor ()
      ensures routes == map[]
    {
      routes := map[];
    }

    /** Registers a request under an internal id. With the ordinals the
        processor counts, no registered request is overwritten. */
    method Insert(conn: ConnectionId, original: RequestId, ordinal: nat, read: nat) returns (id: RequestId)
      modifies this
      ensures IsInternalRequestId(id) && id in routes && routes[id] == Route(conn, original, read)
      ensures forall k | k != id :: k in routes <==> k in old(routes)
      ensures forall k | k in old(routes) && k != id :: routes[k] == old(routes)[k]
      ensures forall c: ConnectionId, n: nat :: id == InternalId(c, n) <==> c == conn && n == ordinal
      ensures OrdinalsBelow(old(routes), ordinal) ==> id !in old(routes) && OrdinalsBelow(routes, ordinal + 1)
    {
      id := InternalId(conn, ordinal);
      forall c: ConnectionId, n: nat
        ensures id == InternalId(c, n) <==> c == conn && n == ordinal
      {
        InternalIdInjective(conn, ordinal, c, n);
      }
      if OrdinalsBelow(routes, ordinal) {
        NextOrdinalIsUnused(routes, conn, ordinal);
      }
      routes := routes[id := Route(conn, original, read)];
    }

    method RewriteResponseRouting(envelope: Envelope) returns (rewritten: Option<Envelope>)
      modifies this
      ensures (rewritten, routes) == Rewrite(envelope, old(routes))
      ensures envelope.ToConnection? || envelope.message.Request? || envelope.message.Notification? ==>
                rewritten == Some(envelope) && routes == old(routes)
      ensures envelope.Broadcast? && (envelope.message.Response? || envelope.message.Error?) ==>
                var id := envelope.message.id;
                if id in old(routes) then
                  && rewritten.Some? && rewritten.value.ToConnection? && rewritten.value.conn == old(routes)[id].conn
                  && rewritten.value.message == envelope.message.(id := old(routes)[id].original)
                  && routes == old(routes) - {id}
                else
                  && routes == old(routes)
                  && rewritten == if id.StringId? && "__code_internal_request__" <= id.s then None else Some(envelope)
    {
      if envelope.Broadcast? && envelope.message.IsAnswer() {
        var id := envelope.message.id;
        if id in routes {
          var route := routes[id];
          routes := routes - {id};
          return Some(ToConnection(route.conn, envelope.message.WithId(route.original)));
        }
        if IsInternalRequestId(id) {
          return None;
        }
      }
      return Some(envelope);
    }

    /** Visits the entries in any order and keeps those of other connections. */
    method RemoveForConnection(conn: ConnectionId)
      modifies this
      ensures forall k :: k in routes <==> k in old(routes) && old(routes)[k].conn != conn
      ensures forall k | k in routes :: routes[k] == old(routes)[k]
      ensures routes == WithoutRoutesOf(old(routes), conn) && !HasRoutesOf(routes, conn)
      ensures routes == old(routes) <==> !HasRoutesOf(old(routes), conn)
    {
      ghost var before := routes;
      var rest := routes.Keys;
      while rest != {}
        invariant rest <= routes.Keys <= before.Keys
        invariant forall k | k in before && k !in rest :: k in routes <==> before[k].conn != conn
        invariant forall k | k in routes :: routes[k] == before[k]
        decreases |rest|
      {
        var k :| k in rest;
        rest := rest - {k};
        if routes[k].conn == conn {
          routes := routes - {k};
        }
      }
      assert routes == WithoutRoutesOf(before, conn);
      WithoutRoutesOfIsNoOpIffNone(before, conn);
    }

    /** Waiting for a connection's requests polls this. */
    method HasPendingRequests(conn: ConnectionId) returns (pending: bool)
      ensures pending <==> HasRoutesOf(routes, conn)
    {
      var rest := routes.Keys;
      pending := false;
      while rest != {} && !pending
        invariant rest <= routes.Keys
        invariant pending <==> exists k :: k in routes && k !in rest && routes[k].conn == conn
        decreases |rest|
      {
        var k :| k in rest;
        rest := rest - {k};
        pending := routes[k].conn == conn;
      }
    }
  }
}
