/** The peer side of a session (src/join/mod.rs): send a join request, poll
    the socket until the UI says leave, then send a leave notice. */
module Join {
  import opened Primitives
  import opened Network

  /** Events the joining loop sends to the UI. */
  datatype JoinedToUIMessage = JoinRequestResponse(accepted: bool)

  /** Commands the UI sends to the joining loop. */
  datatype UIToJoinedMessage = Leave

  function HandleJoinRequestResponse(accepted: bool): (event: JoinedToUIMessage)
    ensures event.accepted == accepted
  {
    JoinedToUIMessage.JoinRequestResponse(accepted)
  }

  /** A join response becomes exactly one UI event with the same flag; a frame
      is dropped. */
  function HandleNetworkMessage(message: HostToClientNetworkMessage): (event: Option<JoinedToUIMessage>)
    ensures event.Some? <==> message.JoinRequestResponse?
    ensures event.Some? ==> event.value.accepted == message.accepted
  {
    match message
    case JoinRequestResponse(accepted) => Some(HandleJoinRequestResponse(accepted))
    case Frame(_) => None
  }

  /** The event, if any, for a datagram read into the receive buffer: the whole
      buffer is decoded, and a buffer that does not decode yields nothing. */
  function Receive(buffer: seq<byte>): (event: Option<JoinedToUIMessage>)
    ensures event.Some? <==> |buffer| >= 2 && buffer[0] == 1
    ensures event.Some? ==> event.value.accepted == (buffer[1] != 0)
  {
    match DecodeHostToClient(buffer)
    case Ok(message) => HandleNetworkMessage(message)
    case Err(_) => None
  }

  /** One scripted iteration: what the UI channel yields, and what arrives at
      the socket before it is polled. */
  datatype JoinTick = JoinTick(command: Option<UIToJoinedMessage>, arrival: Option<seq<byte>>)

  function Arrived(tick: JoinTick): seq<seq<byte>> {
    if tick.arrival.Some? then [tick.arrival.value] else []
  }

  /** The receive buffer of HOST_TO_CLIENT_MESSAGE_SIZE bytes, zeroed before the loop. */
  const INITIAL_BUFFER: seq<byte> := seq(HOST_TO_CLIENT_MESSAGE_SIZE, _ => 0)

  function EventsOf(event: Option<JoinedToUIMessage>): seq<JoinedToUIMessage> {
    if event.Some? then [event.value] else []
  }

  /** What one poll of the socket leaves: the queue, the receive buffer and
      the UI event, if any. */
  datatype PeerStep = PeerStep(queue: seq<seq<byte>>, buffer: seq<byte>, event: Option<JoinedToUIMessage>)

  /** One poll of the socket after `arrived` is queued. The head datagram is
      consumed only when the peek reports at least `k` bytes, k being the
      size of the Rust message type; it is then read into the buffer, and a
      buffer that does not decode gives no event. Otherwise it stays at the
      head. */
  function PeerPoll(queue: seq<seq<byte>>, buffer: seq<byte>, k: nat, arrived: seq<seq<byte>>): PeerStep {
    var q := queue + arrived;
    if |q| > 0 && |q[0]| >= k then
      var b := ReadInto(buffer, q[0]);
      PeerStep(q[1..], b, Receive(b))
    else PeerStep(q, buffer, None)
  }

  /** The UI events of the joining loop over `ticks`, given the datagrams
      queued at the socket and the receive buffer as left by earlier reads. A
      `Leave` ends the loop before the socket is polled. */
  function PeerEvents(queue: seq<seq<byte>>, buffer: seq<byte>, k: nat, ticks: seq<JoinTick>): seq<JoinedToUIMessage>
    decreases |ticks|
  {
    if |ticks| == 0 || ticks[0].command == Some(Leave) then []
    else
      var s := PeerPoll(queue, buffer, k, Arrived(ticks[0]));
      EventsOf(s.event) + PeerEvents(s.queue, s.buffer, k, ticks[1..])
  }

  /** The socket part of one iteration of the `join` loop: the arrival is
      queued, and the head datagram is consumed only when the peek reports at
      least `k` bytes; it is then read into the buffer and decoded, and a
      buffer that does not decode gives no event. */
  method PollSocket(queue: seq<seq<byte>>, networkBuffer: seq<byte>, k: nat, arrived: seq<seq<byte>>)
    returns (queue': seq<seq<byte>>, networkBuffer': seq<byte>, event: Option<JoinedToUIMessage>)
    ensures var q := queue + arrived;
      if |q| > 0 && |q[0]| >= k then
        queue' == q[1..] && networkBuffer' == ReadInto(networkBuffer, q[0]) && event == Receive(networkBuffer')
      else
        queue' == q && networkBuffer' == networkBuffer && event == None
    ensures PeerStep(queue', networkBuffer', event) == PeerPoll(queue, networkBuffer, k, arrived)
  {
    queue', networkBuffer', event := queue + arrived, networkBuffer, None;
    if |queue'| > 0 && |queue'[0]| >= k {
      var datagram := queue'[0];
      queue' := queue'[1..];
      networkBuffer' := ReadInto(networkBuffer', datagram);
      var networkMessage := DecodeHostToClient(networkBuffer');
      if networkMessage.Err? {
        return;
      }
      event := HandleNetworkMessage(networkMessage.value);
    }
  }

  /** The `join` loop over a script of iterations. `id` is the id generated
      at start; `sent` is what the connected socket sends to the host. */
  method RunJoin(id: ClientID, k: nat, ticks: seq<JoinTick>)
    returns (sent: seq<seq<byte>>, events: seq<JoinedToUIMessage>, left: bool)
    // the join request goes out before anything is received
    ensures |sent| >= 1 && sent[0] == EncodeClientToHost(JoinRequest(id))
    // only a Leave command ends the loop, and then a leave notice with the same id is the last send
    ensures left <==> exists i :: 0 <= i < |ticks| && ticks[i].command == Some(Leave)
    ensures left ==> sent == [EncodeClientToHost(JoinRequest(id)), EncodeClientToHost(Left(id))]
    ensures !left ==> sent == [EncodeClientToHost(JoinRequest(id))]
    ensures events == PeerEvents([], INITIAL_BUFFER, k, ticks)
  {
    sent := [EncodeClientToHost(JoinRequest(id))];
    events, left := Listen([], INITIAL_BUFFER, k, ticks);
    if left {
      sent := sent + [EncodeClientToHost(Left(id))];
    }
  }

  /** The polling loop of `join`, from a queue and a receive buffer: each
      iteration checks the UI for `Leave` first and then polls the socket. */
  method Listen(queue: seq<seq<byte>>, networkBuffer: seq<byte>, k: nat, ticks: seq<JoinTick>)
    returns (events: seq<JoinedToUIMessage>, left: bool)
    ensures left <==> exists i :: 0 <= i < |ticks| && ticks[i].command == Some(Leave)
    ensures events == PeerEvents(queue, networkBuffer, k, ticks)
  {
    var queue, networkBuffer := queue, networkBuffer;
    ghost var whole := PeerEvents(queue, networkBuffer, k, ticks);
    events := [];
    left := false;
    var i := 0;
    while i < |ticks|
      invariant 0 <= i <= |ticks|
      invariant !left
      invariant forall j :: 0 <= j < i ==> ticks[j].command != Some(Leave)
      invariant events + PeerEvents(queue, networkBuffer, k, ticks[i..]) == whole
      decreases |ticks| - i
    {
      ghost var rest := ticks[i..];
      assert rest[0] == ticks[i] && rest[1..] == ticks[i + 1..];
      if ticks[i].command == Some(Leave) {
        left := true;
        break;
      }
      ghost var queue0, buffer0, events0 := queue, networkBuffer, events;
      var event;
      queue, networkBuffer, event := PollSocket(queue, networkBuffer, k, Arrived(ticks[i]));
      events := events + EventsOf(event);
      ListenStep(events0, queue0, buffer0, k, rest, PeerStep(queue, networkBuffer, event), whole);
      i := i + 1;
    }
  }

  /** One iteration of `Listen` that does not leave keeps its invariant. */
  lemma ListenStep(events: seq<JoinedToUIMessage>, queue: seq<seq<byte>>, buffer: seq<byte>, k: nat,
                   ticks: seq<JoinTick>, step: PeerStep, whole: seq<JoinedToUIMessage>)
    requires |ticks| > 0 && ticks[0].command != Some(Leave)
    requires step == PeerPoll(queue, buffer, k, Arrived(ticks[0]))
    requires events + PeerEvents(queue, buffer, k, ticks) == whole
    ensures (events + EventsOf(step.event)) + PeerEvents(step.queue, step.buffer, k, ticks[1..]) == whole
  {
    var later := PeerEvents(step.queue, step.buffer, k, ticks[1..]);
    assert PeerEvents(queue, buffer, k, ticks) == EventsOf(step.event) + later;
    AppendAssoc(events, EventsOf(step.event), later);
  }

  lemma AppendAssoc<T>(a: seq<T>, b: seq<T>, c: seq<T>)
    ensures a + (b + c) == (a + b) + c
  {
  }

  /** A datagram shorter than `k` at the head of the queue is never consumed:
      no later datagram gets through and the UI hears nothing more. */
  lemma {:induction false} StuckBehindShortDatagram(queue: seq<seq<byte>>, buffer: seq<byte>, k: nat, ticks: seq<JoinTick>)
    requires |queue| > 0 && |queue[0]| < k
    ensures PeerEvents(queue, buffer, k, ticks) == []
    decreases |ticks|
  {
    if |ticks| > 0 {
      var queue' := queue + Arrived(ticks[0]);
      assert queue'[0] == queue[0];
      StuckBehindShortDatagram(queue', buffer, k, ticks[1..]);
    }
  }

  /** Each iteration yields at most one UI event. */
  lemma {:induction false} AtMostOneEventPerTick(queue: seq<seq<byte>>, buffer: seq<byte>, k: nat, ticks: seq<JoinTick>)
    ensures |PeerEvents(queue, buffer, k, ticks)| <= |ticks|
    decreases |ticks|
  {
    if |ticks| > 0 && ticks[0].command != Some(Leave) {
      var s := PeerPoll(queue, buffer, k, Arrived(ticks[0]));
      AtMostOneEventPerTick(s.queue, s.buffer, k, ticks[1..]);
    }
  }

  /** A response datagram that the peek lets through, arriving at an empty
      queue, is shown to the UI with the flag it carries. */
  lemma ResponseReachesUI(buffer: seq<byte>, k: nat, accepted: bool, rest: seq<JoinTick>)
    requires |buffer| == HOST_TO_CLIENT_MESSAGE_SIZE
    requires k <= 2
    ensures var d := EncodeHostToClient(HostToClientNetworkMessage.JoinRequestResponse(accepted));
      PeerEvents([], buffer, k, [JoinTick(None, Some(d))] + rest)
        == [JoinedToUIMessage.JoinRequestResponse(accepted)] + PeerEvents([], ReadInto(buffer, d), k, rest)
  {
    var d := EncodeHostToClient(HostToClientNetworkMessage.JoinRequestResponse(accepted));
    var ticks := [JoinTick(None, Some(d))] + rest;
    assert ticks[0] == JoinTick(None, Some(d)) && ticks[1..] == rest;
    var b := ReadInto(buffer, d);
    assert b[0] == 1 && (b[1] != 0 <==> accepted);
  }

  /** If the message type is wider than the two-byte join response (as a
      Rust enum holding a `Vec` is), the response is never consumed and the
      peer never learns whether it was accepted. */
  lemma ResponseBlocksWhenPeekLimitExceedsIt(k: nat, accepted: bool, rest: seq<JoinTick>)
    requires k > 2
    ensures var d := EncodeHostToClient(HostToClientNetworkMessage.JoinRequestResponse(accepted));
      PeerEvents([], INITIAL_BUFFER, k, [JoinTick(None, Some(d))] + rest) == []
  {
    var d := EncodeHostToClient(HostToClientNetworkMessage.JoinRequestResponse(accepted));
    var ticks := [JoinTick(None, Some(d))] + rest;
    assert ticks[0] == JoinTick(None, Some(d)) && ticks[1..] == rest;
    assert [] + Arrived(ticks[0]) == [d] && |d| == 2;
    StuckBehindShortDatagram([d], INITIAL_BUFFER, k, rest);
  }
}
