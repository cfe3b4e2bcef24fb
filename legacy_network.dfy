/** The older one-message codec of src/host/network.rs: a join request over a
    fixed three-byte array. */
module LegacyNetwork {
  import opened Primitives
  import Network

  datatype ClientID = ClientID(n: u16)

  datatype ClientToHostNetworkMessage = JoinRequest(id: ClientID)

  datatype NetworkConversionError = EmptyBuffer | UnrecognizedSignature | MalformedMessage

  /** Rust's `[u8; 3]`. */
  type Bytes3 = s: seq<byte> | |s| == 3 witness [0, 0, 0]

  function Encode(m: ClientToHostNetworkMessage): (r: Bytes3)
    ensures r[0] == 1
    ensures r[1] as int + 0x100 * r[2] as int == m.id.n as int
  {
    match m
    case JoinRequest(id) => [1, Low(id.n), High(id.n)]
  }

  function Decode(value: Bytes3): (r: Result<ClientToHostNetworkMessage, NetworkConversionError>)
    ensures r.Ok? <==> value[0] == 1
    ensures r.Err? ==> r.error == UnrecognizedSignature
    // every accepted array re-encodes to itself
    ensures r.Ok? ==> Encode(r.value) == value
  {
    match Get(value, 0)
    case None => Err(EmptyBuffer)
    case Some(first) =>
      if first == 1 then
        match Get(value, 1)
        case None => Err(MalformedMessage)
        case Some(lo) =>
          match Get(value, 2)
          case None => Err(MalformedMessage)
          case Some(hi) => Ok(JoinRequest(ClientID(Join16(lo, hi))))
      else Err(UnrecognizedSignature)
  }

  lemma RoundTrip(m: ClientToHostNetworkMessage)
    ensures Decode(Encode(m)) == Ok(m)
  {
    SplitJoin16(m.id.n);
  }

  /** The legacy join request has the same bytes as the one of the shared codec. */
  lemma AgreesWithNetworkCodec(id: u16)
    ensures Encode(JoinRequest(ClientID(id))) == Network.EncodeClientToHost(Network.JoinRequest(Network.ClientID(id)))
  {
  }
}
