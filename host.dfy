/** The host side of a session (src/host/mod.rs): the admission registry,
    its handlers, and the polling loop that feeds them. */
module Host {
  import opened Primitives
  import opened Network

  /** Events the hosting loop sends to the UI. */
  datatype HostingToUIMessage = JoinRequest(id: ClientID) | ClientLeft(id: ClientID)

  /** Commands the UI sends to the hosting loop. */
  datatype UIToHostingMessage = Stop | JoinRequestResponse(id: ClientID, accepted: bool)

  /** A datagram waiting at the host's socket, with the address it came from. */
  datatype Datagram = Datagram(origin: SocketAddr, bytes: seq<byte>)

  /** A datagram the host's socket sent. */
  datatype Outbound = Outbound(to: SocketAddr, bytes: seq<byte>)

  /** The registries and the two logs at one moment: what the handlers read
      and change. */
  datatype Registry = Registry(
    pending: map<ClientID, Client>,
    accepted: map<ClientID, Client>,
    refused: map<ClientID, Client>,
    events: seq<HostingToUIMessage>,
    sent: seq<Outbound>)

  /** What the handlers preserve. The three maps are NOT disjoint: a resolved
      id stays in `pending`, and an id that asks again (unless refused) is
      re-registered there with its new origin. */
  ghost predicate Inv(r: Registry) {
    && r.accepted.Keys <= r.pending.Keys
    && r.refused.Keys <= r.pending.Keys
    && (forall id :: id in r.pending ==> r.pending[id].id == id)
    && (forall id :: id in r.accepted ==> r.accepted[id].id == id)
    && (forall id :: id in r.refused ==> r.refused[id].id == id)
    // every id the UI was asked about can be answered without a panic
    && (forall i :: 0 <= i < |r.events| && r.events[i].JoinRequest? ==> r.events[i].id in r.pending)
  }

  /** What holds between an earlier and a later registry: `pending` and
      `refused` lose no key, the logs only grow, and no join request of an id
      refused at the earlier moment has been shown to the UI since. */
  ghost predicate Grows(r: Registry, r': Registry) {
    && r.pending.Keys <= r'.pending.Keys
    && r.refused.Keys <= r'.refused.Keys
    && r.events <= r'.events
    && r.sent <= r'.sent
    && (forall i :: |r.events| <= i < |r'.events| && r'.events[i].JoinRequest? ==>
          r'.events[i].id !in r.refused)
  }

  // -----------------------------------------------------------------------
  // The effect of each handler
  // -----------------------------------------------------------------------

  /** A join request from a refused id is ignored; any other one (re)binds the
      id to the request's origin, overwriting an earlier address, and is shown
      to the UI. */
  function AfterJoinRequest(r: Registry, id: ClientID, origin: SocketAddr): Registry {
    if id in r.refused then r
    else r.(pending := r.pending[id := AsClient(id, origin)],
            events := r.events + [HostingToUIMessage.JoinRequest(id)])
  }

  /** The UI's decision copies the pending entry into `accepted` or `refused`
      (leaving `pending` as it is) and sends the response to that entry's
      address. */
  function AfterResponse(r: Registry, id: ClientID, accept: bool): Registry
    requires id in r.pending
  {
    var client := r.pending[id];
    var r' := if accept then r.(accepted := r.accepted[id := client])
              else r.(refused := r.refused[id := client]);
    r'.(sent := r.sent + [Outbound(client.address,
                                   EncodeHostToClient(HostToClientNetworkMessage.JoinRequestResponse(accept)))])
  }

  /** A leave notice forgets an accepted client (a no-op for any other id) and
      is always shown to the UI. */
  function AfterLeft(r: Registry, id: ClientID): Registry {
    r.(accepted := r.accepted - {id}, events := r.events + [ClientLeft(id)])
  }

  function AfterMessage(r: Registry, message: ClientToHostNetworkMessage, origin: SocketAddr): Registry {
    match message
    case JoinRequest(id) => AfterJoinRequest(r, id, origin)
    case Left(id) => AfterLeft(r, id)
  }

  /** A response command may only name an id that asked to join: the source
      unwraps its pending entry. */
  predicate Answerable(r: Registry, command: Option<UIToHostingMessage>) {
    command.Some? && command.value.JoinRequestResponse? ==> command.value.id in r.pending
  }

  /** The command part of an iteration; `Stop` and no command change nothing. */
  function AfterCommand(r: Registry, command: Option<UIToHostingMessage>): Registry
    requires Answerable(r, command)
  {
    if command.Some? && command.value.JoinRequestResponse? then
      AfterResponse(r, command.value.id, command.value.accepted)
    else r
  }

  // -----------------------------------------------------------------------
  // Any sequence of handler calls
  // -----------------------------------------------------------------------

  datatype HandlerCall =
    | OnJoinRequest(id: ClientID, origin: SocketAddr)
    | OnResponse(id: ClientID, accept: bool)
    | OnLeft(id: ClientID)

  /** One handler call; `None` is the panic of a response for an id not pending. */
  function ApplyCall(r: Registry, call: HandlerCall): Option<Registry> {
    match call
    case OnJoinRequest(id, origin) => Some(AfterJoinRequest(r, id, origin))
    case OnResponse(id, accept) => if id in r.pending then Some(AfterResponse(r, id, accept)) else None
    case OnLeft(id) => Some(AfterLeft(r, id))
  }

  function ApplyCalls(r: Registry, calls: seq<HandlerCall>): Option<Registry>
    decreases |calls|
  {
    if |calls| == 0 then Some(r)
    else match ApplyCall(r, calls[0])
      case None => None
      case Some(r1) => ApplyCalls(r1, calls[1..])
  }

  lemma CallPreserves(r: Registry, call: HandlerCall)
    requires Inv(r)
    requires ApplyCall(r, call).Some?
    ensures Inv(ApplyCall(r, call).value)
    ensures Grows(r, ApplyCall(r, call).value)
  {
  }

  lemma GrowsTransitive(r0: Registry, r1: Registry, r2: Registry)
    requires Grows(r0, r1) && Grows(r1, r2)
    ensures Grows(r0, r2)
  {
  }

  /** Over any sequence of handler calls that does not panic, the invariant
      holds throughout, `pending` and `refused` never lose a key, and once an
      id is refused no later join request of it reaches the UI. */
  lemma {:induction false} CallsPreserve(r: Registry, calls: seq<HandlerCall>)
    requires Inv(r)
    requires ApplyCalls(r, calls).Some?
    ensures Inv(ApplyCalls(r, calls).value)
    ensures Grows(r, ApplyCalls(r, calls).value)
    decreases |calls|
  {
    if |calls| == 0 {
      assert ApplyCalls(r, calls).value == r;
    } else {
      var r1 := ApplyCall(r, calls[0]).value;
      CallPreserves(r, calls[0]);
      CallsPreserve(r1, calls[1..]);
      GrowsTransitive(r, r1, ApplyCalls(r, calls).value);
    }
  }

  /** The hosting state: the three registries keyed by client id, the socket
      (as the queue of datagrams not yet consumed and the log of datagrams
      sent) and the log of events sent to the UI. */
  class HostingState {
    var pending: map<ClientID, Client>
    var accepted: map<ClientID, Client>
    var refused: map<ClientID, Client>
    var inbox: seq<Datagram>
    var sent: seq<Outbound>
    var events: seq<HostingToUIMessage>

    ghost function Snapshot(): Registry
      reads this
    {
      Registry(pending, accepted, refused, events, sent)
    }

    ghost predicate Valid()
      reads this
    {
      Inv(Snapshot())
    }

    constructor ()
      ensures Valid()
      ensures pending == map[] && accepted == map[] && refused == map[]
      ensures inbox == [] && sent == [] && events == []
    {
      pending, accepted, refused := map[], map[], map[];
      inbox, sent, events := [], [], [];
    }

    // -------------------------------------------------------------------
    // Handlers
    // -------------------------------------------------------------------

    method HandleJoinRequest(id: ClientID, origin: SocketAddr)
      requires Valid()
      modifies this`pending, this`events
      ensures Valid()
      ensures Snapshot() == AfterJoinRequest(old(Snapshot()), id, origin)
    {
      if id in refused {
        return;
      }
      pending := pending[id := AsClient(id, origin)];
      events := events + [HostingToUIMessage.JoinRequest(id)];
    }

    /** The source unwraps the pending entry, so the id must have asked to join. */
    method HandleJoinRequestResponse(id: ClientID, accept: bool)
      requires Valid()
      requires id in pending
      modifies this`accepted, this`refused, this`sent
      ensures Valid()
      ensures Snapshot() == AfterResponse(old(Snapshot()), id, accept)
      ensures sent[|sent| - 1] == Outbound(old(pending)[id].address, [1, if accept then 1 else 0])
    {
      var client := pending[id];
      if accept {
        accepted := accepted[id := client];
      } else {
        refused := refused[id := client];
      }
      var buffer := EncodeHostToClient(HostToClientNetworkMessage.JoinRequestResponse(accept));
      sent := sent + [Outbound(client.address, buffer)];
    }

    method HandleClientLeft(id: ClientID)
      requires Valid()
      modifies this`accepted, this`events
      ensures Valid()
      ensures Snapshot() == AfterLeft(old(Snapshot()), id)
    {
      accepted := accepted - {id};
      events := events + [ClientLeft(id)];
    }

    method HandleNetworkMessage(message: ClientToHostNetworkMessage, origin: SocketAddr)
      requires Valid()
      modifies this`pending, this`accepted, this`events
      ensures Valid()
      ensures Snapshot() == AfterMessage(old(Snapshot()), message, origin)
    {
      match message
      case JoinRequest(id) => HandleJoinRequest(id, origin);
      case Left(id) => HandleClientLeft(id);
    }

    // -------------------------------------------------------------------
    // One iteration of the hosting loop
    // -------------------------------------------------------------------

    /** A datagram arrives at the socket. */
    method Deliver(d: Datagram)
      modifies this`inbox
      ensures inbox == old(inbox) + [d]
    {
      inbox := inbox + [d];
    }

    /** The command part: at most one UI command is applied. */
    method ApplyCommand(command: Option<UIToHostingMessage>) returns (stop: bool)
      requires Valid()
      requires Answerable(Snapshot(), command)
      modifies this`accepted, this`refused, this`sent
      ensures Valid()
      ensures stop <==> command == Some(Stop)
      ensures Snapshot() == AfterCommand(old(Snapshot()), command)
    {
      stop := false;
      if command.Some? {
        match command.value
        case Stop => stop := true;
        case JoinRequestResponse(id, accept) => HandleJoinRequestResponse(id, accept);
      }
    }

    /** The network part: the first queued datagram is peeked into the reused
        three-byte `buffer`; it is consumed and dispatched only if the buffer
        decodes, and otherwise stays at the head of the queue. */
    method PollNetwork(buffer: seq<byte>) returns (buffer': seq<byte>)
      requires Valid()
      requires |buffer| == CLIENT_TO_HOST_MESSAGE_SIZE
      modifies this`inbox, this`pending, this`accepted, this`events
      ensures Valid()
      ensures |buffer'| == CLIENT_TO_HOST_MESSAGE_SIZE
      ensures old(inbox) == [] ==>
        buffer' == buffer && inbox == old(inbox) && Snapshot() == old(Snapshot())
      ensures old(inbox) != [] ==> buffer' == ReadInto(buffer, old(inbox)[0].bytes)
      ensures old(inbox) != [] && DecodeClientToHost(buffer').Err? ==>
        inbox == old(inbox) && Snapshot() == old(Snapshot())
      ensures old(inbox) != [] && DecodeClientToHost(buffer').Ok? ==>
        && inbox == old(inbox)[1..]
        && Snapshot() == AfterMessage(old(Snapshot()), DecodeClientToHost(buffer').value, old(inbox)[0].origin)
      // the same cases, as the value-level `Poll`
      ensures HostResult(Snapshot(), inbox, buffer', Running) == Poll(old(Snapshot()), old(inbox), buffer)
    {
      buffer' := buffer;
      if inbox != [] {
        var datagram := inbox[0];
        buffer' := ReadInto(buffer, datagram.bytes);
        var messageResult := DecodeClientToHost(buffer');
        if messageResult.Ok? {
          inbox := inbox[1..];
          HandleNetworkMessage(messageResult.value, datagram.origin);
        }
      }
    }

    /** One iteration of the hosting loop: at most one UI command, then at
        most one datagram; `Stop` ends it before the socket is looked at. */
    method Step(command: Option<UIToHostingMessage>, buffer: seq<byte>) returns (stop: bool, buffer': seq<byte>)
      requires Valid()
      requires |buffer| == CLIENT_TO_HOST_MESSAGE_SIZE
      requires Answerable(Snapshot(), command)
      modifies this
      ensures Valid()
      ensures |buffer'| == CLIENT_TO_HOST_MESSAGE_SIZE
      ensures stop <==> command == Some(Stop)
      ensures stop ==> buffer' == buffer && inbox == old(inbox) && Snapshot() == old(Snapshot())
      // otherwise the command is applied and then the socket polled: with an
      // empty queue or an undecodable peek only the command has an effect;
      // a decodable peek consumes the head and applies its message on top
      ensures !stop ==>
        HostResult(Snapshot(), inbox, buffer', Running)
          == Poll(AfterCommand(old(Snapshot()), command), old(inbox), buffer)
      ensures Grows(old(Snapshot()), Snapshot())
    {
      ghost var before := Snapshot();
      stop := ApplyCommand(command);
      buffer' := buffer;
      if stop {
        return;
      }
      ghost var middle := Snapshot();
      buffer' := PollNetwork(buffer);
      if command.Some? && command.value.JoinRequestResponse? {
        CallPreserves(before, OnResponse(command.value.id, command.value.accepted));
      }
      PollPreserves(middle, old(inbox), buffer);
      GrowsTransitive(before, middle, Snapshot());
    }
  }

  /** One scripted iteration: what the UI channel yields, and what arrives at
      the socket before it is polled. */
  datatype HostTick = HostTick(command: Option<UIToHostingMessage>, arrival: Option<Datagram>)

  /** How a scripted run ends: a `Stop` command, a panic on a response for an
      id that never asked to join, or the script running out while the loop
      would still go on. */
  datatype HostOutcome = Stopped | Panicked(id: ClientID) | Running

  /** Where a run of the `host` loop leaves the registry, the socket's queue
      and the peek buffer, and how it ended. */
  datatype HostResult = HostResult(registry: Registry, inbox: seq<Datagram>, buffer: seq<byte>, outcome: HostOutcome)

  const EMPTY_REGISTRY: Registry := Registry(map[], map[], map[], [], [])

  function ArrivedAt(tick: HostTick): seq<Datagram> {
    if tick.arrival.Some? then [tick.arrival.value] else []
  }

  /** The network part of an iteration on values: the head datagram (if any)
      is peeked into the buffer, and it is consumed and its message applied
      exactly when the buffer decodes. */
  function Poll(r: Registry, inbox: seq<Datagram>, buffer: seq<byte>): HostResult {
    if inbox == [] then HostResult(r, inbox, buffer, Running)
    else
      var buffer' := ReadInto(buffer, inbox[0].bytes);
      match DecodeClientToHost(buffer')
      case Err(_) => HostResult(r, inbox, buffer', Running)
      case Ok(m) => HostResult(AfterMessage(r, m, inbox[0].origin), inbox[1..], buffer', Running)
  }

  /** The `host` loop over `ticks` from a registry, a queue and a peek buffer:
      the arrival is queued; a `Stop` ends the run, as does a response for an
      id that is not pending (the unwrap panics); otherwise the command is
      applied and then the socket polled. */
  function HostTrace(r: Registry, inbox: seq<Datagram>, buffer: seq<byte>, ticks: seq<HostTick>): HostResult
    decreases |ticks|
  {
    if |ticks| == 0 then HostResult(r, inbox, buffer, Running)
    else
      var inbox := inbox + ArrivedAt(ticks[0]);
      var command := ticks[0].command;
      if command == Some(Stop) then HostResult(r, inbox, buffer, Stopped)
      else if !Answerable(r, command) then HostResult(r, inbox, buffer, Panicked(command.value.id))
      else
        var p := Poll(AfterCommand(r, command), inbox, buffer);
        HostTrace(p.registry, p.inbox, p.buffer, ticks[1..])
  }

  lemma PollPreserves(r: Registry, inbox: seq<Datagram>, buffer: seq<byte>)
    requires Inv(r)
    ensures Inv(Poll(r, inbox, buffer).registry)
    ensures Grows(r, Poll(r, inbox, buffer).registry)
    ensures |Poll(r, inbox, buffer).buffer| == |buffer|
  {
    if inbox != [] {
      var m := DecodeClientToHost(ReadInto(buffer, inbox[0].bytes));
      if m.Ok? {
        if m.value.JoinRequest? {
          CallPreserves(r, OnJoinRequest(m.value.id, inbox[0].origin));
        } else {
          CallPreserves(r, OnLeft(m.value.id));
        }
      }
    }
  }

  /** A run of the loop keeps the invariant, satisfies `Grows`, keeps the
      buffer's length, and a panic names an id that is not pending and that
      the UI was never asked about. */
  lemma {:induction false} HostTraceKeepsInvariant(r: Registry, inbox: seq<Datagram>, buffer: seq<byte>, ticks: seq<HostTick>)
    requires Inv(r)
    ensures var t := HostTrace(r, inbox, buffer, ticks);
      && Inv(t.registry)
      && Grows(r, t.registry)
      && |t.buffer| == |buffer|
      && (t.outcome.Panicked? ==>
            && t.outcome.id !in t.registry.pending
            && forall e :: e in t.registry.events && e.JoinRequest? ==> e.id != t.outcome.id)
    decreases |ticks|
  {
    var t := HostTrace(r, inbox, buffer, ticks);
    if |ticks| == 0 {
      assert t.registry == r;
    } else {
      var inbox' := inbox + ArrivedAt(ticks[0]);
      var command := ticks[0].command;
      if command == Some(Stop) {
      } else if !Answerable(r, command) {
        assert t.registry == r;
        assert forall j :: 0 <= j < |r.events| && r.events[j].JoinRequest? ==> r.events[j].id in r.pending;
      } else {
        var r1 := AfterCommand(r, command);
        if command.Some? && command.value.JoinRequestResponse? {
          CallPreserves(r, OnResponse(command.value.id, command.value.accepted));
        }
        var p := Poll(r1, inbox', buffer);
        PollPreserves(r1, inbox', buffer);
        GrowsTransitive(r, r1, p.registry);
        HostTraceKeepsInvariant(p.registry, p.inbox, p.buffer, ticks[1..]);
        GrowsTransitive(r, p.registry, t.registry);
      }
    }
  }

  /** No tick before `n` carries a `Stop`. */
  predicate NoStopBefore(ticks: seq<HostTick>, n: int)
    requires n <= |ticks|
  {
    forall j :: 0 <= j < n ==> ticks[j].command != Some(Stop)
  }

  /** How a run ends: `Running` when no tick says `Stop`; `Stopped` at a `Stop`
      with no `Stop` before it; `Panicked(id)` at a response for `id`, again
      with no `Stop` before it. */
  lemma {:induction false} HostTraceOutcome(r: Registry, inbox: seq<Datagram>, buffer: seq<byte>, ticks: seq<HostTick>)
    ensures var t := HostTrace(r, inbox, buffer, ticks);
      && (t.outcome == Running ==> NoStopBefore(ticks, |ticks|))
      && (t.outcome == Stopped ==>
            exists i :: 0 <= i < |ticks| && ticks[i].command == Some(Stop) && NoStopBefore(ticks, i))
      && (t.outcome.Panicked? ==>
            exists i :: (0 <= i < |ticks| && ticks[i].command.Some?
              && ticks[i].command.value.JoinRequestResponse? && ticks[i].command.value.id == t.outcome.id
              && NoStopBefore(ticks, i)))
    decreases |ticks|
  {
    if |ticks| > 0 {
      var inbox' := inbox + ArrivedAt(ticks[0]);
      var command := ticks[0].command;
      if command == Some(Stop) {
        assert NoStopBefore(ticks, 0);
      } else if !Answerable(r, command) {
        assert NoStopBefore(ticks, 0);
      } else {
        var t := HostTrace(r, inbox, buffer, ticks);
        var p := Poll(AfterCommand(r, command), inbox', buffer);
        var rest := ticks[1..];
        HostTraceOutcome(p.registry, p.inbox, p.buffer, rest);
        if t.outcome == Running {
          assert forall j :: 1 <= j < |ticks| ==> ticks[j] == rest[j - 1];
        }
        if t.outcome == Stopped {
          var i :| 0 <= i < |rest| && rest[i].command == Some(Stop) && NoStopBefore(rest, i);
          assert ticks[i + 1].command == Some(Stop);
          assert forall j :: 1 <= j < i + 1 ==> ticks[j] == rest[j - 1];
          assert NoStopBefore(ticks, i + 1);
        }
        if t.outcome.Panicked? {
          var i :| (0 <= i < |rest| && rest[i].command.Some?
            && rest[i].command.value.JoinRequestResponse? && rest[i].command.value.id == t.outcome.id
            && NoStopBefore(rest, i));
          assert ticks[i + 1] == rest[i];
          assert forall j :: 1 <= j < i + 1 ==> ticks[j] == rest[j - 1];
          assert NoStopBefore(ticks, i + 1);
        }
      }
    }
  }

  /** The host's head-of-line block: a non-empty datagram whose first byte is
      no opcode never decodes, whatever the stale bytes behind it, so it is
      never consumed. Every later join request and leave notice waits behind
      it: `pending` and the UI events never change again. */
  lemma {:induction false} HostStuckBehindUnrecognized(r: Registry, inbox: seq<Datagram>, buffer: seq<byte>, ticks: seq<HostTick>)
    requires |inbox| > 0 && |inbox[0].bytes| > 0 && inbox[0].bytes[0] !in {1, 2}
    ensures var t := HostTrace(r, inbox, buffer, ticks);
      && |t.inbox| > 0 && t.inbox[0] == inbox[0]
      && t.registry.pending == r.pending
      && t.registry.events == r.events
    decreases |ticks|
  {
    if |ticks| > 0 {
      var inbox' := inbox + ArrivedAt(ticks[0]);
      assert inbox'[0] == inbox[0];
      var command := ticks[0].command;
      if command != Some(Stop) && Answerable(r, command) {
        var r1 := AfterCommand(r, command);
        var buffer' := ReadInto(buffer, inbox'[0].bytes);
        assert |buffer'| == 0 || buffer'[0] == inbox[0].bytes[0];
        assert DecodeClientToHost(buffer').Err?;
        HostStuckBehindUnrecognized(r1, inbox', buffer', ticks[1..]);
      }
    }
  }

  /** One iteration of `HostTrace` that neither stops nor panics. */
  lemma HostTraceUnfold(r: Registry, inbox: seq<Datagram>, buffer: seq<byte>, ticks: seq<HostTick>)
    requires |ticks| > 0 && ticks[0].command != Some(Stop) && Answerable(r, ticks[0].command)
    ensures var p := Poll(AfterCommand(r, ticks[0].command), inbox + ArrivedAt(ticks[0]), buffer);
      HostTrace(r, inbox, buffer, ticks) == HostTrace(p.registry, p.inbox, p.buffer, ticks[1..])
  {
  }

  /** A peer's join request in one iteration and the UI's answer in the
      next, from a fresh registry: the client ends up accepted or refused at
      the request's origin, the UI was asked once, and the one datagram sent
      is the answer, to that origin. */
  lemma {:induction false} RequestThenAnswer(origin: SocketAddr, id: ClientID, accept: bool)
    ensures var ticks := [HostTick(None, Some(Datagram(origin, EncodeClientToHost(ClientToHostNetworkMessage.JoinRequest(id))))),
                          HostTick(Some(UIToHostingMessage.JoinRequestResponse(id, accept)), None)];
      var t := HostTrace(EMPTY_REGISTRY, [], [0, 0, 0], ticks);
      && t.outcome == Running
      && t.inbox == []
      && t.registry.accepted == (if accept then map[id := Client(id, origin)] else map[])
      && t.registry.refused == (if accept then map[] else map[id := Client(id, origin)])
      && t.registry.events == [HostingToUIMessage.JoinRequest(id)]
      && t.registry.sent == [Outbound(origin, [1, if accept then 1 else 0])]
  {
    var answer := HostTick(Some(UIToHostingMessage.JoinRequestResponse(id, accept)), None);
    var ticks := [HostTick(None, Some(Datagram(origin, EncodeClientToHost(ClientToHostNetworkMessage.JoinRequest(id))))), answer];
    assert ticks[1..] == [answer];
    RequestTick(EMPTY_REGISTRY, [0, 0, 0], origin, id, ticks);
    var rA := AfterJoinRequest(EMPTY_REGISTRY, id, origin);
    AnswerTick(rA, EncodeClientToHost(ClientToHostNetworkMessage.JoinRequest(id)), answer);
  }

  /** A join request arriving at an empty queue is consumed in its own
      iteration and has the effect of `AfterJoinRequest`. */
  lemma {:induction false} RequestTick(r: Registry, buffer: seq<byte>, origin: SocketAddr, id: ClientID, ticks: seq<HostTick>)
    requires |buffer| == CLIENT_TO_HOST_MESSAGE_SIZE
    requires |ticks| > 0 && ticks[0] == HostTick(None, Some(Datagram(origin, EncodeClientToHost(ClientToHostNetworkMessage.JoinRequest(id)))))
    ensures HostTrace(r, [], buffer, ticks)
      == HostTrace(AfterJoinRequest(r, id, origin), [], EncodeClientToHost(ClientToHostNetworkMessage.JoinRequest(id)), ticks[1..])
  {
    var d := EncodeClientToHost(ClientToHostNetworkMessage.JoinRequest(id));
    ClientToHostRoundTrip(ClientToHostNetworkMessage.JoinRequest(id));
    var inbox := [Datagram(origin, d)];
    assert [] + ArrivedAt(ticks[0]) == inbox;
    assert ReadInto(buffer, d) == d;
    assert Poll(AfterCommand(r, ticks[0].command), inbox, buffer) == HostResult(AfterJoinRequest(r, id, origin), [], d, Running);
    HostTraceUnfold(r, [], buffer, ticks);
  }

  /** An answer to a pending id, with nothing queued, has the effect of
      `AfterResponse`. */
  lemma {:induction false} AnswerTick(r: Registry, buffer: seq<byte>, tick: HostTick)
    requires tick.command.Some? && tick.command.value.JoinRequestResponse?
    requires tick.command.value.id in r.pending && tick.arrival.None?
    ensures HostTrace(r, [], buffer, [tick])
      == HostResult(AfterResponse(r, tick.command.value.id, tick.command.value.accepted), [], buffer, Running)
  {
    assert [tick][1..] == [];
    assert [] + ArrivedAt(tick) == [];
    HostTraceUnfold(r, [], buffer, [tick]);
  }

  /** The `host` loop over a script of iterations, from a fresh registry and a
      zeroed three-byte peek buffer. */
  method RunHost(ticks: seq<HostTick>) returns (state: HostingState, outcome: HostOutcome)
    ensures fresh(state)
    ensures state.Valid()
    // the registry, the queue and the outcome are those of the loop's trace
    ensures var t := HostTrace(EMPTY_REGISTRY, [], [0, 0, 0], ticks);
      state.Snapshot() == t.registry && state.inbox == t.inbox && outcome == t.outcome
    // only the first Stop ends the run, and a panic comes before any Stop
    ensures outcome == Stopped ==>
      exists i :: 0 <= i < |ticks| && ticks[i].command == Some(Stop) && NoStopBefore(ticks, i)
    ensures outcome == Running ==> NoStopBefore(ticks, |ticks|)
    ensures outcome.Panicked? ==>
      exists i :: (0 <= i < |ticks| && ticks[i].command.Some?
        && ticks[i].command.value.JoinRequestResponse? && ticks[i].command.value.id == outcome.id
        && NoStopBefore(ticks, i))
    // the panic is on an id that never asked to join: it is not pending and the UI was never told of it
    ensures outcome.Panicked? ==> outcome.id !in state.pending
    ensures outcome.Panicked? ==>
      forall e :: e in state.events && e.JoinRequest? ==> e.id != outcome.id
  {
    state := new HostingState();
    var buffer: seq<byte> := [0, 0, 0];
    outcome := Running;
    ghost var whole := HostTrace(EMPTY_REGISTRY, [], [0, 0, 0], ticks);
    var i := 0;
    while i < |ticks|
      invariant 0 <= i <= |ticks|
      invariant state.Valid()
      invariant |buffer| == CLIENT_TO_HOST_MESSAGE_SIZE
      invariant HostTrace(state.Snapshot(), state.inbox, buffer, ticks[i..]) == whole
      decreases |ticks| - i
    {
      var tick := ticks[i];
      assert ticks[i..][0] == tick && ticks[i..][1..] == ticks[i + 1..];
      ghost var r0, inbox0, buffer0 := state.Snapshot(), state.inbox, buffer;
      if tick.arrival.Some? {
        state.Deliver(tick.arrival.value);
      }
      assert state.inbox == inbox0 + ArrivedAt(tick) && state.Snapshot() == r0;
      if tick.command.Some? && tick.command.value.JoinRequestResponse? && tick.command.value.id !in state.pending {
        outcome := Panicked(tick.command.value.id);
        assert whole == HostResult(state.Snapshot(), state.inbox, buffer, outcome);
        break;
      }
      var stop;
      stop, buffer := state.Step(tick.command, buffer);
      if stop {
        outcome := Stopped;
        assert whole == HostResult(state.Snapshot(), state.inbox, buffer, outcome);
        break;
      }
      HostTraceUnfold(r0, inbox0, buffer0, ticks[i..]);
      ghost var p := Poll(AfterCommand(r0, tick.command), inbox0 + ArrivedAt(tick), buffer0);
      assert p == HostResult(state.Snapshot(), state.inbox, buffer, Running);
      assert whole == HostTrace(p.registry, p.inbox, p.buffer, ticks[i + 1..]);
      i := i + 1;
    }
    assert whole.registry == state.Snapshot() && whole.inbox == state.inbox && whole.outcome == outcome;
    HostTraceKeepsInvariant(EMPTY_REGISTRY, [], [0, 0, 0], ticks);
    HostTraceOutcome(EMPTY_REGISTRY, [], [0, 0, 0], ticks);
  }
}
