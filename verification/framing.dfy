/** Message framing: every datagram between connection-aware peers starts with
    one header byte. The numeric values of the header enum are defined outside
    this model, so they are a parameter (`Tags`); Rust gives distinct enum
    variants distinct discriminants, which `Tags.Distinct` records. */
module Framing {
  import opened Transport

  /** The header a leading byte decodes to; `Other` is any byte that is not
      one of the four known tags. */
  datatype MessageHeader = Data | Heartbeat | ClientHandshake | ServerHandshake | Other

  datatype Tags = Tags(data: byte, heartbeat: byte, clientHandshake: byte, serverHandshake: byte)
  {
    predicate Distinct() {
      && data != heartbeat && data != clientHandshake && data != serverHandshake
      && heartbeat != clientHandshake && heartbeat != serverHandshake
      && clientHandshake != serverHandshake
    }
  }

  /** `MessageHeader::X as u8` */
  function Encode(tags: Tags, h: MessageHeader): byte
    requires h != Other
  {
    match h
    case Data => tags.data
    case Heartbeat => tags.heartbeat
    case ClientHandshake => tags.clientHandshake
    case ServerHandshake => tags.serverHandshake
  }

  /** `MessageHeader::from(u8)`, taken to invert `as u8` on the four tags:
      a known tag byte decodes to its header and every other byte to `Other`. */
  function Decode(tags: Tags, b: byte): (h: MessageHeader)
    ensures h == Other <==> b !in {tags.data, tags.heartbeat, tags.clientHandshake, tags.serverHandshake}
    ensures h != Other ==> Encode(tags, h) == b
  {
    if b == tags.data then Data
    else if b == tags.heartbeat then Heartbeat
    else if b == tags.clientHandshake then ClientHandshake
    else if b == tags.serverHandshake then ServerHandshake
    else Other
  }

  /** A control frame is the header byte alone. */
  function ControlFrame(tags: Tags, h: MessageHeader): seq<byte>
    requires h != Other && h != Data
  {
    [Encode(tags, h)]
  }

  /** A data frame is the `Data` header byte followed by the application payload. */
  function DataFrame(tags: Tags, payload: seq<byte>): seq<byte>
  {
    [Encode(tags, Data)] + payload
  }

  /** Decoding inverts encoding for every known header. */
  lemma {:induction false} DecodeEncode(tags: Tags, h: MessageHeader)
    requires tags.Distinct() && h != Other
    ensures Decode(tags, Encode(tags, h)) == h
  {
  }

  /** A data frame is recognised by its first byte, and its payload is what follows it. */
  lemma {:induction false} DataFrameParts(tags: Tags, payload: seq<byte>)
    ensures var f := DataFrame(tags, payload); |f| == |payload| + 1 && Decode(tags, f[0]) == Data && f[1..] == payload
  {
  }
}
