/** The wire protocol shared by the relay server and its clients: every
    datagram is one type byte followed by a type-specific payload. */
module Protocol {

  /** One octet on the wire. */
  type Byte = b: int | 0 <= b < 256

  // Audio format (include/common.h)
  const SAMPLE_RATE: int := 48000
  const FRAMES_PER_BUFFER: int := 960
  const SAMPLE_SIZE: int := 2
  const NUM_CHANNELS: int := 1
  /** Bytes in one frame of audio: 960 samples, mono, 16 bits each. */
  const AUDIO_BUFFER_SIZE: int := FRAMES_PER_BUFFER * NUM_CHANNELS * SAMPLE_SIZE

  /** Both ends receive into a buffer of one type byte plus one audio frame. */
  const RECEIVE_BUFFER_SIZE: int := 1 + AUDIO_BUFFER_SIZE

  /** The bytes a receive into that buffer keeps: a longer datagram is cut
      to the buffer's size. */
  function Truncate(d: seq<Byte>): (r: seq<Byte>)
    ensures |r| <= RECEIVE_BUFFER_SIZE && |r| <= |d|
    ensures r == d[..|r|]
    ensures |d| <= RECEIVE_BUFFER_SIZE ==> r == d
    ensures |d| > RECEIVE_BUFFER_SIZE ==> |r| == RECEIVE_BUFFER_SIZE
  {
    if |d| <= RECEIVE_BUFFER_SIZE then d else d[..RECEIVE_BUFFER_SIZE]
  }

  // Named constants used by the C++ code but defined outside the modelled files
  const MAX_NAME_LENGTH: int := 50
  const CLIENT_TIMEOUT_SEC: int := 1
  const PORT: int := 12345

  /** The packet kinds; `Other` stands for any byte that is none of them. */
  datatype PacketType =
    | LoginRequest
    | AudioData
    | ServerMessage
    | LoginOk
    | ServerFull
    | DiscoveryRequest
    | DiscoveryResponse
    | KeepalivePong
    | LogoutNotice
    | Other(code: Byte)

  /** True of the bytes that name one of the nine known packet kinds. */
  predicate IsKnownCode(b: Byte) {
    1 <= b <= 9
  }

  /** A packet type is canonical when an `Other` never hides a known code. */
  predicate Canonical(t: PacketType) {
    t.Other? ==> !IsKnownCode(t.code)
  }

  /** The type byte written at the head of a datagram. */
  function Code(t: PacketType): (b: Byte)
    ensures Canonical(t) ==> (t.Other? <==> !IsKnownCode(b))
    ensures t.Other? ==> b == t.code
  {
    match t
    case LoginRequest => 1
    case AudioData => 2
    case ServerMessage => 3
    case LoginOk => 4
    case ServerFull => 5
    case DiscoveryRequest => 6
    case DiscoveryResponse => 7
    case KeepalivePong => 8
    case LogoutNotice => 9
    case Other(c) => c
  }

  /** The cast of a datagram's first byte to a packet type. */
  function TypeOf(b: Byte): (t: PacketType)
    ensures Canonical(t)
    ensures Code(t) == b
    ensures t.Other? <==> !IsKnownCode(b)
  {
    if b == 1 then LoginRequest
    else if b == 2 then AudioData
    else if b == 3 then ServerMessage
    else if b == 4 then LoginOk
    else if b == 5 then ServerFull
    else if b == 6 then DiscoveryRequest
    else if b == 7 then DiscoveryResponse
    else if b == 8 then KeepalivePong
    else if b == 9 then LogoutNotice
    else Other(b)
  }

  /** Distinct canonical packet types have distinct codes, so the cast
      recovers every canonical type from its code. */
  lemma TypeOfCode(t: PacketType)
    requires Canonical(t)
    ensures TypeOf(Code(t)) == t
  {
    match t
    case Other(c) =>
      assert !IsKnownCode(c);
    case _ =>
  }

  /** A datagram split into its type and its payload. */
  datatype Packet = Packet(kind: PacketType, payload: seq<Byte>)

  function Encode(p: Packet): (d: seq<Byte>)
    ensures |d| == 1 + |p.payload|
    ensures d[0] == Code(p.kind) && d[1..] == p.payload
  {
    [Code(p.kind)] + p.payload
  }

  /** Splits a datagram into type byte and payload; an empty datagram has
      neither. */
  function Decode(d: seq<Byte>): (r: Option<Packet>)
    ensures r.None? <==> |d| == 0
    ensures r.Some? ==> Canonical(r.value.kind) && Encode(r.value) == d
  {
    if |d| < 1 then None else Some(Packet(TypeOf(d[0]), d[1..]))
  }

  /** Encoding then decoding a packet yields its type and payload again. */
  lemma DecodeEncode(p: Packet)
    requires Canonical(p.kind)
    ensures Decode(Encode(p)) == Some(p)
  {
    TypeOfCode(p.kind);
  }

  /** A packet that carries only its type byte. */
  function Bare(t: PacketType): (d: seq<Byte>)
    ensures d == Encode(Packet(t, [])) && |d| == 1
    ensures Canonical(t) ==> Decode(d) == Some(Packet(t, []))
  {
    if Canonical(t) then TypeOfCode(t); [Code(t)] else [Code(t)]
  }

  /** The bytes of an ASCII text (the server's notices are ASCII). */
  function Ascii(s: string): (r: seq<Byte>)
    requires forall i :: 0 <= i < |s| ==> s[i] as int < 128
    ensures |r| == |s|
    ensures forall i :: 0 <= i < |s| ==> r[i] == s[i] as int
  {
    seq(|s|, i requires 0 <= i < |s| => s[i] as int)
  }

  datatype Option<T> = None | Some(value: T)
}
