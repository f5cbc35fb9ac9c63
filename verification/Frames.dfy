// The frames a demultiplexer receives, and the payload checksum every CHUNK must carry.
module Frames {
  import opened Prelude
  import opened Reassembly
  import Cbor

  const FNV_OFFSET_BASIS: nat := 0xcbf2_9ce4_8422_2325
  const FNV_PRIME: nat := 0x100_0000_01b3

  datatype Frame =
    | StreamStart(id: Option<string>, media: Option<string>, startMeta: Option<Meta>,
                  isSequence: Option<bool>, unbounded: Option<bool>)
    | Chunk(stream: Option<string>, payload: Option<Bytes>, checksum: Option<nat>, meta: Option<Meta>)
    | StreamEnd(ended: Option<string>)
    | End
    | Err(code: Option<string>, message: Option<string>, badAttribution: Option<string>)
    | Log(text: string)
    | Other

  function OrElse<T>(o: Option<T>, default: T): T {
    match o case Some(v) => v case None => default
  }

  // Exclusive or of the lowest `bits` bits.
  function Xor(a: nat, b: nat, bits: nat): nat {
    if bits == 0 then 0 else (a % 2 + b % 2) % 2 + 2 * Xor(a / 2, b / 2, bits - 1)
  }

  // The low byte of the running hash is combined with the next payload byte.
  function XorByte(hash: nat, b: Byte): nat {
    hash / 256 * 256 + Xor(hash % 256, b, 8)
  }

  function ChecksumFrom(hash: nat, data: Bytes): nat
    decreases |data|
  {
    if data == [] then hash else ChecksumFrom(XorByte(hash, data[0]) * FNV_PRIME % TWO_64, data[1..])
  }

  // 64-bit FNV-1a.
  function Checksum(data: Bytes): nat {
    ChecksumFrom(FNV_OFFSET_BASIS, data)
  }

  // An ERR frame without its mandatory text fields is itself a protocol error.
  function RemoteFailure(f: Frame): StreamError
    requires f.Err?
  {
    if f.code.None? then Protocol("ERR frame missing required text code")
    else if f.message.None? then Protocol("ERR frame missing required text message")
    else if f.badAttribution.Some? then Protocol(f.badAttribution.value)
    else Remote(f.code.value, f.message.value)
  }

  // Why a CHUNK payload is refused before it is decoded, if it is.
  function Refusal(payload: Bytes, checksum: Option<nat>): Option<StreamError> {
    match checksum
    case None => Some(MissingChecksum)
    case Some(expected) =>
      if Checksum(payload) == expected then None else Some(ChecksumMismatch(expected, Checksum(payload)))
  }

  // A scalar payload is one CBOR value; bytes after it are not looked at.
  function DecodeScalar(payload: Bytes, meta: Option<Meta>): Delivery {
    match Cbor.Decode(payload)
    case Item(v, _) => Data(v, meta)
    case _ => Failed(Undecodable)
  }
}
