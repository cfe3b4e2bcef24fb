/** The wire codec shared by host and peer, and the chunked send of large buffers
    (src/encoding/network.rs). */
module Network {
  import opened Primitives

  datatype ClientID = ClientID(n: u16)

  /** A network endpoint; the model only compares endpoints for equality. */
  datatype SocketAddr = SocketAddr(ip: seq<byte>, port: u16)

  /** A peer the host knows about: its id and the address its join request came from. */
  datatype Client = Client(id: ClientID, address: SocketAddr)

  function AsClient(id: ClientID, address: SocketAddr): (c: Client)
    ensures c.id == id && c.address == address
  {
    Client(id, address)
  }

  datatype ClientToHostNetworkMessage = JoinRequest(id: ClientID) | Left(id: ClientID)

  datatype NetworkConversionError = EmptyBuffer | UnrecognizedSignature | MalformedMessage

  /** An opaque, already encoded video frame. */
  datatype NetworkFrame = NetworkFrame(data: seq<byte>)

  datatype HostToClientNetworkMessage =
    | JoinRequestResponse(accepted: bool)
    | Frame(frame: NetworkFrame)

  const CLIENT_TO_HOST_MESSAGE_SIZE: nat := 3
  /** The largest payload of one UDP datagram over IPv4. */
  const MAX_UDP_SEND_SIZE: nat := 65507
  const HOST_TO_CLIENT_MESSAGE_SIZE: nat := MAX_UDP_SEND_SIZE
  /** `send_to_large` cuts its input at `MAX_UDP_SEND_SIZE - 1` bytes. */
  const CHUNK_SIZE: nat := MAX_UDP_SEND_SIZE - 1

  function Opcode(m: ClientToHostNetworkMessage): byte {
    match m
    case JoinRequest(_) => 1
    case Left(_) => 2
  }

  // ---------------------------------------------------------------------
  // Client to host: a fixed three-byte layout [opcode, id_lo, id_hi]
  // ---------------------------------------------------------------------

  function EncodeClientToHost(m: ClientToHostNetworkMessage): (r: seq<byte>)
    ensures |r| == CLIENT_TO_HOST_MESSAGE_SIZE
    ensures r[0] == Opcode(m) && r[0] in {1, 2}
    ensures r[1] as int + 0x100 * r[2] as int == m.id.n as int
  {
    [Opcode(m), Low(m.id.n), High(m.id.n)]
  }

  /** The two id bytes at offsets 1 and 2, each bounds-checked. */
  function DecodeId(value: seq<byte>): (r: Result<ClientID, NetworkConversionError>)
    ensures r.Ok? <==> |value| >= 3
    ensures r.Err? ==> r.error == MalformedMessage
    ensures r.Ok? ==> Low(r.value.n) == value[1] && High(r.value.n) == value[2]
  {
    match Get(value, 1)
    case None => Err(MalformedMessage)
    case Some(lo) =>
      match Get(value, 2)
      case None => Err(MalformedMessage)
      case Some(hi) => Ok(ClientID(Join16(lo, hi)))
  }

  function DecodeClientToHost(value: seq<byte>): (r: Result<ClientToHostNetworkMessage, NetworkConversionError>)
    ensures |value| == 0 ==> r == Err(EmptyBuffer)
    ensures |value| > 0 && value[0] !in {1, 2} ==> r == Err(UnrecognizedSignature)
    ensures |value| > 0 && value[0] in {1, 2} && |value| < 3 ==> r == Err(MalformedMessage)
    ensures r.Ok? <==> |value| >= 3 && value[0] in {1, 2}
    // a decoded message re-encodes to the first three bytes: the rest is ignored
    ensures r.Ok? ==> EncodeClientToHost(r.value) == value[..3]
  {
    match Get(value, 0)
    case None => Err(EmptyBuffer)
    case Some(first) =>
      if first == 1 then
        match DecodeId(value)
        case Err(e) => Err(e)
        case Ok(id) => Ok(JoinRequest(id))
      else if first == 2 then
        match DecodeId(value)
        case Err(e) => Err(e)
        case Ok(id) => Ok(Left(id))
      else Err(UnrecognizedSignature)
  }

  lemma ClientToHostRoundTrip(m: ClientToHostNetworkMessage)
    ensures DecodeClientToHost(EncodeClientToHost(m)) == Ok(m)
  {
    SplitJoin16(m.id.n);
  }

  /** Decoding depends on the first three bytes only. */
  lemma ClientToHostIgnoresTail(value: seq<byte>, tail: seq<byte>)
    requires |value| >= 3
    ensures DecodeClientToHost(value + tail) == DecodeClientToHost(value)
  {
    assert (value + tail)[..3] == value[..3];
  }

  // ---------------------------------------------------------------------
  // Host to client: opcode-prefixed, variable length
  // ---------------------------------------------------------------------

  /** The number of datagrams `send_to_large` uses for a buffer of `len` bytes. */
  function DatagramCount(len: nat): nat { len / MAX_UDP_SEND_SIZE + 1 }

  /** Frame encoding writes the datagram count into one byte and panics if it
      does not fit (about 16 MB of payload). */
  predicate FrameFits(frame: NetworkFrame) {
    DatagramCount(|frame.data| + 2) <= 255
  }

  predicate Encodable(m: HostToClientNetworkMessage) {
    m.Frame? ==> FrameFits(m.frame)
  }

  function EncodeHostToClient(m: HostToClientNetworkMessage): (r: seq<byte>)
    requires Encodable(m)
    ensures |r| >= 2
    ensures m.JoinRequestResponse? ==>
      r == [1, if m.accepted then 1 else 0]
    ensures m.Frame? ==>
      && r[0] == 2
      && r[2..] == m.frame.data
      && r[1] as int == DatagramCount(|r|)
  {
    match m
    case JoinRequestResponse(accepted) => [1, if accepted then 1 else 0]
    case Frame(frame) =>
      var output := [2 as byte];
      var amountOfSends := DatagramCount(|frame.data| + 2);
      var output := output + [amountOfSends as byte];
      output + frame.data
  }

  function DecodeHostToClient(value: seq<byte>): (r: Result<HostToClientNetworkMessage, NetworkConversionError>)
    ensures |value| == 0 ==> r == Err(EmptyBuffer)
    ensures |value| > 0 && value[0] !in {1, 2} ==> r == Err(UnrecognizedSignature)
    ensures |value| == 1 && value[0] == 1 ==> r == Err(MalformedMessage)
    ensures r.Ok? <==> |value| > 0 && (value[0] == 2 || (value[0] == 1 && |value| >= 2))
    ensures r.Ok? && value[0] == 1 ==> r.value == JoinRequestResponse(value[1] != 0)
    // opcode 2 drops the opcode and count bytes, or everything if there are fewer
    ensures r.Ok? && value[0] == 2 ==>
      r.value == Frame(NetworkFrame(if |value| >= 2 then value[2..] else []))
  {
    match Get(value, 0)
    case None => Err(EmptyBuffer)
    case Some(first) =>
      if first == 1 then
        match Get(value, 1)
        case None => Err(MalformedMessage)
        case Some(accepted) => Ok(JoinRequestResponse(accepted != 0))
      else if first == 2 then
        var rest := SplitOffFirst(SplitOffFirst(value));
        Ok(Frame(NetworkFrame(rest)))
      else Err(UnrecognizedSignature)
  }

  /** Rust's `split_off_first` on a slice: drops the first element, if any. */
  function SplitOffFirst(s: seq<byte>): (r: seq<byte>)
    ensures |s| > 0 ==> r == s[1..]
    ensures |s| == 0 ==> r == []
  {
    if |s| == 0 then s else s[1..]
  }

  lemma HostToClientRoundTrip(m: HostToClientNetworkMessage)
    requires Encodable(m)
    ensures DecodeHostToClient(EncodeHostToClient(m)) == Ok(m)
  {
  }

  // ---------------------------------------------------------------------
  // Receiving into a reused fixed-size buffer
  // ---------------------------------------------------------------------

  /** The contents of `buffer` after a datagram is read into it: the first
      min(|datagram|, |buffer|) bytes are overwritten, the rest keep their old
      values (the datagram is truncated to the buffer). This is the socket
      read of both loops, the host's `peek_from` (src/host/mod.rs:61) and the
      peer's `recv` (src/join/mod.rs:46); it lives here because both use it. */
  function ReadInto(buffer: seq<byte>, datagram: seq<byte>): (r: seq<byte>)
    ensures |r| == |buffer|
    ensures forall i :: 0 <= i < |r| ==> r[i] == if i < |datagram| then datagram[i] else buffer[i]
  {
    if |datagram| >= |buffer| then datagram[..|buffer|]
    else datagram + buffer[|datagram|..]
  }

  // ---------------------------------------------------------------------
  // send_to_large: one buffer as several datagrams
  // ---------------------------------------------------------------------

  function Concat(parts: seq<seq<byte>>): seq<byte> {
    if |parts| == 0 then [] else parts[0] + Concat(parts[1..])
  }

  lemma {:induction false} ConcatSnoc(parts: seq<seq<byte>>, last: seq<byte>)
    ensures Concat(parts + [last]) == Concat(parts) + last
  {
    if |parts| == 0 {
      assert parts + [last] == [last];
    } else {
      assert (parts + [last])[1..] == parts[1..] + [last];
      ConcatSnoc(parts[1..], last);
    }
  }

  /** The datagrams `send_to_large` sends, in order, to its one destination:
      `|bytes| / MAX_UDP_SEND_SIZE` slices of `CHUNK_SIZE` bytes and then the
      remainder. Socket errors are not modelled. */
  method SendToLarge(bytes: seq<byte>) returns (datagrams: seq<seq<byte>>)
    ensures |datagrams| == DatagramCount(|bytes|)
    ensures forall i :: 0 <= i < |datagrams| - 1 ==> |datagrams[i]| == CHUNK_SIZE
    ensures Concat(datagrams) == bytes
  {
    var amountOfSlices := |bytes| / MAX_UDP_SEND_SIZE;
    var remaining := bytes;
    datagrams := [];
    for i := 0 to amountOfSlices
      invariant |datagrams| == i
      invariant forall j :: 0 <= j < i ==> |datagrams[j]| == CHUNK_SIZE
      invariant |remaining| == |bytes| - i * CHUNK_SIZE
      invariant Concat(datagrams) + remaining == bytes
    {
      var left, right := remaining[..CHUNK_SIZE], remaining[CHUNK_SIZE..];
      ConcatSnoc(datagrams, left);
      assert left + right == remaining;
      datagrams := datagrams + [left];
      remaining := right;
    }
    ConcatSnoc(datagrams, remaining);
    datagrams := datagrams + [remaining];
  }

  /** For a serialized frame, the count byte at offset 1 announces exactly the
      number of datagrams `SendToLarge` sends for that buffer. */
  method FrameAnnouncesItsDatagrams(frame: NetworkFrame) returns (datagrams: seq<seq<byte>>)
    requires FrameFits(frame)
    ensures EncodeHostToClient(Frame(frame))[1] as int == |datagrams|
    ensures Concat(datagrams) == EncodeHostToClient(Frame(frame))
  {
    datagrams := SendToLarge(EncodeHostToClient(Frame(frame)));
  }

  /** The length of datagrams of which all but the last have `CHUNK_SIZE` bytes. */
  lemma {:induction false} ConcatLength(parts: seq<seq<byte>>)
    requires |parts| >= 1
    requires forall i :: 0 <= i < |parts| - 1 ==> |parts[i]| == CHUNK_SIZE
    ensures |Concat(parts)| == (|parts| - 1) * CHUNK_SIZE + |parts[|parts| - 1]|
  {
    if |parts| > 1 {
      ConcatLength(parts[1..]);
    }
  }

  /** What `SendToLarge` promises fixes the size of the last datagram: the
      input length less the full slices, which is the remainder modulo
      `MAX_UDP_SEND_SIZE` plus one byte per full slice. It exceeds
      `MAX_UDP_SEND_SIZE` exactly when that sum does. */
  lemma LastDatagramSize(bytes: seq<byte>, datagrams: seq<seq<byte>>)
    requires |datagrams| == DatagramCount(|bytes|)
    requires forall i :: 0 <= i < |datagrams| - 1 ==> |datagrams[i]| == CHUNK_SIZE
    requires Concat(datagrams) == bytes
    ensures |datagrams[|datagrams| - 1]| == |bytes| - (|bytes| / MAX_UDP_SEND_SIZE) * CHUNK_SIZE
    ensures |datagrams[|datagrams| - 1]| == |bytes| % MAX_UDP_SEND_SIZE + |bytes| / MAX_UDP_SEND_SIZE
  {
    ConcatLength(datagrams);
  }

  /** No size bound holds for the last datagram: a buffer of 196520 bytes is
      sent as two datagrams of 65506 bytes and a last one of 65508, over
      `MAX_UDP_SEND_SIZE`. */
  lemma LastDatagramCanExceedLimit(bytes: seq<byte>, datagrams: seq<seq<byte>>)
    requires |bytes| == 196520
    requires |datagrams| == DatagramCount(|bytes|)
    requires forall i :: 0 <= i < |datagrams| - 1 ==> |datagrams[i]| == CHUNK_SIZE
    requires Concat(datagrams) == bytes
    ensures |datagrams| == 3 && |datagrams[2]| == 65508 > MAX_UDP_SEND_SIZE
  {
    LastDatagramSize(bytes, datagrams);
  }
}
