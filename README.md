# quickscreen session and transport layer, modelled in Dafny

quickscreen shares one machine's screen (the host) with peers over UDP. A peer
first asks to join, and the host accepts or refuses it. This project models
the layer that handles sessions and transport:

- `primitives.dfy` (module `Primitives`): `u8`/`u16` as newtypes, `Option`/`Result`,
  bounds-checked `get`, and the little-endian split and join of a `u16`.
- `network.dfy` (module `Network`, src/encoding/network.rs): client ids and
  clients, and both message codecs. Client→host messages are three bytes,
  `[opcode, id_lo, id_hi]`. Host→client messages start with an opcode:
  `[1, accepted]` or `[2, count, payload…]`. This module also holds the three
  decode errors, the size constants, and `send_to_large`, which cuts a buffer
  into datagrams of `MAX_UDP_SEND_SIZE - 1` bytes.
- `legacy_network.dfy` (module `LegacyNetwork`, src/host/network.rs): the older
  codec. It has only the join request, over a fixed `[u8; 3]`.
- `host.dfy` (module `Host`, src/host/mod.rs): the class `HostingState`, which
  holds:
  - the three registries `pending`, `accepted` and `refused`, each a map from
    client id to client;
  - the socket, modelled as a queue of unconsumed datagrams plus a log of sent
    datagrams;
  - the log of events sent to the UI.

  The same module states the effect of each handler as a function on a
  value `Registry` (the three maps and the two logs). The class's methods
  are proved to change their fields exactly as those functions say. The
  module also covers the dispatch of network messages, one iteration of the
  `host` loop (`Step`), and the loop itself over a script (`RunHost`). The
  function `HostTrace` states on values what a run over a script produces,
  and `RunHost` is proved to produce exactly that.
- `join.dfy` (module `Join`, src/join/mod.rs): the peer's dispatch from a
  message to an optional UI event, and the `join` loop (`RunJoin`). `RunJoin`
  runs over a scripted sequence of ticks. Each tick holds the command polled
  from the UI (if any) and the datagram that arrived (if any).

Behaviour of the code that the model keeps, and that is easy to miss:

- The host's three maps are not disjoint. A resolved id stays in `pending`,
  and a request from a non-refused id overwrites its address. `Valid()` states
  only what the code keeps: the keys of `accepted` and of `refused` are subsets
  of the keys of `pending`, and every id the UI was asked about is pending.
- A refusal does not end the peer loop. The UI answers a refusal by sending
  `Leave` (src/ui/join.rs:263-278).
- A decoded frame gives no UI event on the peer.
- src/join/mod.rs imports `crate::host::network`, which has neither `Left` nor
  the host→client message. The peer is modelled against the codec of
  src/encoding/network.rs. `LegacyNetwork.AgreesWithNetworkCodec` shows that
  both codecs encode the join request to the same bytes.
- Both loops reuse one receive buffer. The host uses 3 bytes and the peer uses
  65507, and both decode the whole buffer. A short datagram therefore leaves
  stale bytes from the last read in the buffer (`Network.ReadInto`). On the
  host, this means `EmptyBuffer` and `MalformedMessage` can never occur.
- The peer consumes a datagram only when its peek reports at least `k` bytes.
  `k` stands for `size_of::<HostToClientNetworkMessage>()` and is a parameter
  of the model. A join response is 2 bytes long. If `k > 2`, the response is
  never consumed and it blocks the peer's queue forever
  (`Join.ResponseBlocksWhenPeekLimitExceedsIt`,
  `Join.StuckBehindShortDatagram`).
- The host has the same kind of head-of-line block. A datagram whose first
  byte is neither 1 nor 2 never decodes, so it is never consumed
  (src/host/mod.rs:61-67). Every later join request or leave notice waits
  behind it for ever (`Host.HostStuckBehindUnrecognized`).
- `send_to_large` sends `L / 65507 + 1` datagrams. Every datagram but the last
  has 65506 bytes. The last one has `L % 65507 + L / 65507` bytes
  (`Network.LastDatagramSize`), so it can be longer than 65507 bytes: a
  buffer of 196520 bytes ends with a datagram of 65508 bytes
  (`Network.LastDatagramCanExceedLimit`).

## Model

| member | source | states |
|---|---|---|
| `Network.AsClient` | src/encoding/network.rs:17-19 | the client carries the given id and address |
| `Network.EncodeClientToHost` | src/encoding/network.rs:42-48 | exactly `CLIENT_TO_HOST_MESSAGE_SIZE` = 3 bytes; byte 0 is the opcode (1 join, 2 left); bytes 1 and 2 are the id in little-endian order |
| `Network.DecodeClientToHost` | src/encoding/network.rs:58-90 | empty buffer gives `EmptyBuffer`; first byte not 1 or 2 gives `UnrecognizedSignature`; opcode 1 or 2 with fewer than 3 bytes gives `MalformedMessage`; success exactly when neither applies; a decoded message re-encodes to the first three bytes, so later bytes are ignored |
| `Network.ClientToHostRoundTrip` | src/encoding/network.rs:42-90 | decoding the encoding of `JoinRequest(id)` or `Left(id)` gives back the message, for every 16-bit id |
| `Network.ClientToHostIgnoresTail` | src/encoding/network.rs:58-90 | bytes appended after a 3-byte prefix do not change the decode result |
| `Network.EncodeHostToClient` | src/encoding/network.rs:99-113 | a response is `[1, 1]` or `[1, 0]`; a frame is `[2, count] ++ data`, where count is the number of datagrams `send_to_large` uses for the whole buffer; this requires that count to fit in one byte, since the source panics otherwise |
| `Network.DecodeHostToClient` | src/encoding/network.rs:115-137 | the three error cases; opcode 1 needs 2 bytes and any non-zero second byte means accepted; opcode 2 never fails and its payload is the input without its first two bytes, or empty when the input is shorter |
| `Network.HostToClientRoundTrip` | src/encoding/network.rs:99-137 | decoding an encoded response or frame gives back the message |
| `Network.ReadInto` | src/host/mod.rs:61-63 | the socket read of both loops (also src/join/mod.rs:46): after a datagram is read into a fixed buffer, the buffer keeps its length; each byte comes from the datagram where the datagram reaches and keeps its old value elsewhere |
| `Network.SendToLarge` | src/encoding/network.rs:151-170 | for L input bytes it sends `L / 65507 + 1` datagrams; every datagram but the last has 65506 bytes; the datagrams concatenated in order give back the input; every `split_at` stays in bounds |
| `Network.FrameAnnouncesItsDatagrams` | src/encoding/network.rs:103-167 | the count byte of a serialized frame equals the number of datagrams `send_to_large` sends for that buffer, and those datagrams reassemble to the buffer |
| `Network.ConcatLength` | src/encoding/network.rs:160-167 | datagrams of which all but the last have 65506 bytes concatenate to `(n - 1) * 65506` plus the last one's length |
| `Network.LastDatagramSize` | src/encoding/network.rs:156-167 | for any L-byte input, what `SendToLarge` promises fixes the last datagram at `L - (L / 65507) * 65506` bytes, that is `L % 65507 + L / 65507` |
| `Network.LastDatagramCanExceedLimit` | src/encoding/network.rs:156-167 | a 196520-byte buffer is sent as three datagrams and the last one has 65508 bytes, over the UDP limit |
| `LegacyNetwork.Encode` | src/host/network.rs:16-24 | always 3 bytes: opcode 1, then the id in little-endian order |
| `LegacyNetwork.Decode` | src/host/network.rs:33-53 | succeeds exactly when the first byte is 1, and otherwise gives `UnrecognizedSignature`; `EmptyBuffer` and `MalformedMessage` never occur; every accepted `[1, a, b]` re-encodes to itself |
| `LegacyNetwork.RoundTrip` | src/host/network.rs:16-53 | decoding the encoding of `JoinRequest(id)` gives it back, for every 16-bit id |
| `LegacyNetwork.AgreesWithNetworkCodec` | src/host/network.rs:21 | the legacy join request has the same bytes as the shared codec's |
| `Host.HostingState.constructor` | src/host/mod.rs:41-46 | empty registries, an empty socket, no events |
| `Host.HostingState.HandleJoinRequest` | src/host/mod.rs:110-127 | the new registry is `AfterJoinRequest`: a refused id changes nothing; any other id gets `pending[id] := Client(id, origin)`, overwriting any earlier address, plus exactly one `JoinRequest(id)` event; `accepted`, `refused` and the sent log stay unchanged; `Valid()` is kept |
| `Host.HostingState.HandleJoinRequestResponse` | src/host/mod.rs:129-142 | requires `id` in `pending`; the new registry is `AfterResponse`: accepting sets `accepted[id] := pending[id]` and refusing sets `refused[id] := pending[id]`; the other map stays unchanged, and so do `pending` and the events; exactly one datagram `[1, accepted?1:0]` goes to `pending[id].address` |
| `Host.HostingState.HandleClientLeft` | src/host/mod.rs:144-154 | the new registry is `AfterLeft`: the id is removed from `accepted` only, a no-op when it is absent; `ClientLeft(id)` is always appended |
| `Host.HostingState.HandleNetworkMessage` | src/host/mod.rs:94-108 | `JoinRequest(id)` from an origin has the effect `AfterJoinRequest(id, origin)`; `Left(id)` has the effect `AfterLeft(id)` |
| `Host.HostingState.ApplyCommand` | src/host/mod.rs:52-59 | applies at most one UI command: `Stop` reports stop and, like no command, changes nothing; a response has the effect `AfterResponse` |
| `Host.HostingState.PollNetwork` | src/host/mod.rs:61-68 | an empty socket changes nothing; otherwise the head datagram is read into the 3-byte buffer (`ReadInto`); if the buffer decodes, the datagram is consumed and the message dispatched with its origin (`AfterMessage`); if not, nothing changes and the datagram stays queued |
| `Host.HostingState.Step` | src/host/mod.rs:51-68 | `Stop` ends the iteration before any network read and changes nothing; otherwise the registry after the command is `AfterCommand`; then, as in `PollNetwork`, the returned buffer is the head datagram read into the old one, and the head is consumed and its message applied on top (`AfterMessage`) exactly when that buffer decodes; every iteration keeps `Valid()` and satisfies `Grows` |
| `Host.CallPreserves` | src/host/mod.rs:110-154 | each handler that does not panic keeps the invariant and satisfies `Grows`: no key leaves `pending` or `refused`, the logs only grow, and a join request shown to the UI is never from an id that was already refused |
| `Host.CallsPreserve` | src/host/mod.rs:94-154 | the same over any sequence of handler calls that does not panic, so once an id is refused none of its later join requests ever reaches the UI |
| `Host.HostTraceKeepsInvariant` | src/host/mod.rs:51-68 | over any script, the loop keeps the invariant and satisfies `Grows`, keeps the peek buffer's length, and a panic names an id that is not pending and that the UI was never asked about |
| `Host.HostTraceOutcome` | src/host/mod.rs:51-59 | a run is `Running` only if no tick says `Stop`; it is `Stopped` at a `Stop` with no `Stop` before it, and `Panicked(id)` at a response for `id` with no `Stop` before it |
| `Host.HostStuckBehindUnrecognized` | src/host/mod.rs:61-67 | a non-empty head datagram whose first byte is neither 1 nor 2 stays at the head for the rest of the run, so `pending` and the UI events never change again |
| `Host.RequestThenAnswer` | src/host/mod.rs:51-142 | from a fresh registry, a join request followed by the UI's answer leaves the client in `accepted` or in `refused` at the request's origin, one `JoinRequest` event, and exactly one response datagram `[1, accepted?1:0]` to that origin |
| `Host.RequestTick` | src/host/mod.rs:61-127 | a join request arriving at an empty queue is consumed in its own iteration, with the effect of `AfterJoinRequest` |
| `Host.AnswerTick` | src/host/mod.rs:52-142 | an answer for a pending id, with nothing queued, has the effect of `AfterResponse` |
| `Host.RunHost` | src/host/mod.rs:33-92 | the loop over a script, from an empty registry and a zeroed buffer. The final registry, queue and outcome are exactly those of `HostTrace` over the script. It ends `Stopped` only at a `Stop` with no `Stop` before it, and `Running` only if no tick says `Stop`; `Panicked(id)` arises only on a response command for that id, which is then not pending and was never in a `JoinRequest` event sent to the UI; `Valid()` holds throughout |
| `Join.HandleJoinRequestResponse` | src/join/mod.rs:74-83 | the UI event carries the response's flag |
| `Join.HandleNetworkMessage` | src/join/mod.rs:62-72 | a response yields exactly one UI event with the same flag; a frame yields none |
| `Join.Receive` | src/join/mod.rs:46-52 | a buffer that does not decode is dropped without an event; an event arises exactly when the buffer starts with opcode 1, and its flag is whether byte 1 is non-zero |
| `Join.RunJoin` | src/join/mod.rs:17-60 | the first datagram sent is `JoinRequest(id)`, before any receive; only a `Leave` command ends the loop, and it is checked before the socket; after exit, the last datagram sent is `Left(id)` with the same id; the UI events are exactly `PeerEvents` of the script |
| `Join.PollSocket` | src/join/mod.rs:42-53 | the arrival is queued; the head datagram is consumed exactly when it holds at least the peek threshold of bytes, is then read into the buffer and gives the event its decoding yields (none if it does not decode); otherwise queue and buffer are unchanged and there is no event; the result is the step `PeerPoll` describes |
| `Join.Listen` | src/join/mod.rs:35-54 | the loop ends exactly when some iteration's command is `Leave`, checked before the socket; the events it sends to the UI are exactly `PeerEvents` of the queue, buffer and script |
| `Join.ListenStep` | src/join/mod.rs:35-54 | an iteration that does not leave moves one step of `PeerEvents`: the events so far plus the iteration's event plus the events of the remaining script are the events of the whole script |
| `Join.StuckBehindShortDatagram` | src/join/mod.rs:42-46 | once a datagram shorter than the peek threshold heads the queue, no later event ever reaches the UI |
| `Join.AtMostOneEventPerTick` | src/join/mod.rs:35-54 | each loop iteration yields at most one UI event |
| `Join.ResponseReachesUI` | src/join/mod.rs:42-53 | when the threshold admits 2 bytes, a join response arriving at an empty queue gives the UI event with its flag |
| `Join.ResponseBlocksWhenPeekLimitExceedsIt` | src/join/mod.rs:42-46 | when the threshold exceeds 2 bytes, a join response is never consumed and the UI hears nothing |

## Left out

- The GStreamer bus loop in each host iteration (src/host/mod.rs:70-87). It waits on the encoder's bus and sends no frames, so the host never fans frames out. The wait has no timeout (`bus.iter_timed(ClockTime::NONE)`, src/host/mod.rs:72), and it ends only on an `Error` or `Eos` message (src/host/mod.rs:76-84). So in the program, a second host iteration is reached only after the pipeline has failed or ended. The model assumes that every such wait returns.
- `recv_large` (src/encoding/network.rs:171-195). It is blocking socket polling that nothing calls. It also appends the whole padded buffer for every datagram, and for a count byte c of at least 2 it reads c - 1 datagrams, one fewer than announced. A count of 1 reads exactly one datagram, and a count of 0 underflows the `u8` subtraction (src/encoding/network.rs:177, 183). So a reassembly round trip holds only for the datagrams of `SendToLarge` (`Concat`), not for `recv_large`.
- `Network.SendToLarge`: no bound on the size of one datagram is stated, because none holds (see `Network.LastDatagramCanExceedLimit`).
- `ClientID::generate` (randomness) in both codec files. The id is a parameter of `RunJoin`.
- Sockets, mpsc channels and threads. The socket is a queue of incoming datagrams plus a log of sent ones. The channels are a log of UI events and a scripted command per iteration. An arrival is placed in the queue before the poll of its iteration.
- Send failures, and the panics of `unwrap` on sends, binds, channel sends and the receives at src/host/mod.rs:65 and src/join/mod.rs:46. Sends always succeed. Socket errors from `send_to_large` (its `?`) are not modelled.
- The peek semantics are those of Linux. A peek into a shorter buffer truncates and reports the bytes copied, so "at least `k` bytes" means the datagram has at least `k` bytes.
- Logging (`println!`, `dbg!`).
- The UI pages, the capture and encoding pipeline, and the binary's start-up (src/ui, src/encoding/linux.rs, src/encoding/mod.rs, src/host/capture.rs, src/main.rs) are not part of this model.
