/**
 * The wire frame and its codec: a 14-byte big-endian header (`>BBHIIH`) followed
 * by the payload.  `struct.pack` raises on a field that does not fit its width;
 * `Serialize` answers `Err` there.
 */
module Frames {
  import opened Wrappers

  type Byte = x: int | 0 <= x < 0x100
  type Bytes = seq<Byte>

  const HEADER_SIZE: nat := 14
  const U16: nat := 0x1_0000
  const U32: nat := 0x1_0000_0000

  datatype FrameType = DATA | ACK | SYN | FIN | RST | PING | PONG {
    function Code(): Byte {
      match this
      case DATA => 1
      case ACK => 2
      case SYN => 3
      case FIN => 4
      case RST => 5
      case PING => 6
      case PONG => 7
    }
  }

  // The enumeration's constructor: a code outside 1..7 raises ValueError.
  function TypeOfCode(code: int): (r: Option<FrameType>)
    ensures r.Some? <==> 1 <= code <= 7
    ensures r.Some? ==> r.value.Code() == code
  {
    match code
    case 1 => Some(DATA)
    case 2 => Some(ACK)
    case 3 => Some(SYN)
    case 4 => Some(FIN)
    case 5 => Some(RST)
    case 6 => Some(PING)
    case 7 => Some(PONG)
    case _ => None
  }

  datatype Frame = Frame(ftype: FrameType, flags: nat, channelId: nat, seqNo: nat, ack: nat, payload: Bytes) {
    function TotalSize(): nat {
      HEADER_SIZE + |payload|
    }

    // MORE_FRAGMENTS is bit 0 of the flags.
    predicate HasMoreFragments() {
      flags % 2 == 1
    }

    // Every field fits its width in the header.
    predicate Fits() {
      && flags < 0x100
      && channelId < U16
      && seqNo < U32
      && ack < U32
      && |payload| < U16
    }
  }

  datatype FrameError = OutOfRange | TooShort | Truncated | UnknownType

  function Pack16(x: nat): Bytes
    requires x < U16
  {
    [x / 0x100, x % 0x100]
  }

  function Unpack16(b: Bytes): nat
    requires |b| == 2
  {
    (b[0] as int) * 0x100 + b[1] as int
  }

  function Pack32(x: nat): Bytes
    requires x < U32
  {
    Pack16(x / U16) + Pack16(x % U16)
  }

  function Unpack32(b: Bytes): nat
    requires |b| == 4
  {
    Unpack16(b[..2]) * U16 + Unpack16(b[2..])
  }

  function Header(f: Frame): (h: Bytes)
    requires f.Fits()
    ensures |h| == HEADER_SIZE
  {
    [f.ftype.Code(), f.flags] + Pack16(f.channelId) + Pack32(f.seqNo) + Pack32(f.ack) + Pack16(|f.payload|)
  }

  function Serialize(f: Frame): (r: Result<Bytes, FrameError>)
    ensures r.Ok? <==> f.Fits()
    ensures r.Ok? ==> |r.value| == f.TotalSize()
  {
    if f.Fits() then Ok(Header(f) + f.payload) else Err(OutOfRange)
  }

  function Deserialize(data: Bytes): Result<Frame, FrameError> {
    if |data| < HEADER_SIZE then
      Err(TooShort)
    else
      var length := Unpack16(data[12..14]);
      if |data| < HEADER_SIZE + length then
        Err(Truncated)
      else
        match TypeOfCode(data[0])
        case None => Err(UnknownType)
        case Some(ftype) =>
          Ok(Frame(ftype, data[1], Unpack16(data[2..4]), Unpack32(data[4..8]), Unpack32(data[8..12]),
                   data[HEADER_SIZE..HEADER_SIZE + length]))
  }

  lemma Pack16RoundTrip(x: nat)
    requires x < U16
    ensures Unpack16(Pack16(x)) == x
  {
  }

  lemma Unpack16RoundTrip(b: Bytes)
    requires |b| == 2
    ensures Unpack16(b) < U16 && Pack16(Unpack16(b)) == b
  {
  }

  lemma Pack32RoundTrip(x: nat)
    requires x < U32
    ensures Unpack32(Pack32(x)) == x
  {
  }

  lemma Unpack32RoundTrip(b: Bytes)
    requires |b| == 4
    ensures Unpack32(b) < U32 && Pack32(Unpack32(b)) == b
  {
  }

  /**
   * The bytes on the wire: type and flags, then every number most significant byte first, each at its
   * offset, then the payload.
   */
  lemma WireLayout(f: Frame)
    requires f.Fits()
    ensures var b := Serialize(f).value;
      && |b| == 14 + |f.payload|
      && (f.ftype == DATA <==> b[0] == 1) && (f.ftype == ACK <==> b[0] == 2) && (f.ftype == SYN <==> b[0] == 3)
      && (f.ftype == FIN <==> b[0] == 4) && (f.ftype == RST <==> b[0] == 5) && (f.ftype == PING <==> b[0] == 6)
      && (f.ftype == PONG <==> b[0] == 7)
      && b[1] == f.flags
      && 0x100 * (b[2] as int) + b[3] == f.channelId
      && 0x100_0000 * (b[4] as int) + 0x1_0000 * (b[5] as int) + 0x100 * (b[6] as int) + b[7] == f.seqNo
      && 0x100_0000 * (b[8] as int) + 0x1_0000 * (b[9] as int) + 0x100 * (b[10] as int) + b[11] == f.ack
      && 0x100 * (b[12] as int) + b[13] == |f.payload|
      && b[14..] == f.payload
  {
    var b := Serialize(f).value;
    assert b[2..4] == Pack16(f.channelId) && b[12..14] == Pack16(|f.payload|);
    assert b[4..8] == Pack32(f.seqNo) && b[8..12] == Pack32(f.ack);
    assert b[2..4][0] == b[2] && b[2..4][1] == b[3] && b[12..14][0] == b[12] && b[12..14][1] == b[13];
    BigEndian32(f.seqNo, b[4..8]);
    BigEndian32(f.ack, b[8..12]);
  }

  lemma BigEndian32(x: nat, b: Bytes)
    requires x < U32 && b == Pack32(x)
    ensures 0x100_0000 * (b[0] as int) + 0x1_0000 * (b[1] as int) + 0x100 * (b[2] as int) + b[3] == x
  {
  }

  /** The flag for MORE_FRAGMENTS is bit 0, whatever other flags are set. */
  lemma MoreFragmentsBit(f: Frame)
    requires f.Fits()
    ensures f.HasMoreFragments() <==> (f.flags as bv8) & 1 == 1
  {
  }

  // A serialized frame is recovered from any buffer that starts with it.
  lemma RoundTrip(f: Frame, extra: Bytes)
    requires f.Fits()
    ensures Deserialize(Serialize(f).value + extra) == Ok(f)
  {
    var data := Serialize(f).value + extra;
    assert data[0] == f.ftype.Code() && data[1] == f.flags;
    assert data[2..4] == Pack16(f.channelId);
    assert data[4..8] == Pack32(f.seqNo);
    assert data[8..12] == Pack32(f.ack);
    assert data[12..14] == Pack16(|f.payload|);
    Pack16RoundTrip(f.channelId);
    Pack32RoundTrip(f.seqNo);
    Pack32RoundTrip(f.ack);
    Pack16RoundTrip(|f.payload|);
    assert data[HEADER_SIZE..HEADER_SIZE + |f.payload|] == f.payload;
  }

  // Whatever the decoder accepts starts with the encoding of the frame it returns.
  lemma AcceptedIsSerialized(data: Bytes)
    requires Deserialize(data).Ok?
    ensures Deserialize(data).value.Fits()
    ensures Serialize(Deserialize(data).value).value <= data
  {
    var f := Deserialize(data).value;
    Unpack16RoundTrip(data[2..4]);
    Unpack32RoundTrip(data[4..8]);
    Unpack32RoundTrip(data[8..12]);
    Unpack16RoundTrip(data[12..14]);
    assert data[..HEADER_SIZE] == data[..2] + data[2..4] + data[4..8] + data[8..12] + data[12..14];
    assert data[..2] == [data[0], data[1]];
    assert Header(f) == data[..HEADER_SIZE];
    assert data[..f.TotalSize()] == data[..HEADER_SIZE] + f.payload;
  }

  // The decoder answers `f` on exactly the buffers that start with the encoding of `f`.
  lemma DecodesExactly(data: Bytes, f: Frame)
    ensures Deserialize(data) == Ok(f) <==> f.Fits() && Serialize(f).value <= data
  {
    if Deserialize(data) == Ok(f) {
      AcceptedIsSerialized(data);
    }
    if f.Fits() && Serialize(f).value <= data {
      var n := f.TotalSize();
      assert data == Serialize(f).value + data[n..];
      RoundTrip(f, data[n..]);
    }
  }

  lemma SerializeInjective(f: Frame, g: Frame)
    requires f.Fits() && g.Fits() && Serialize(f) == Serialize(g)
    ensures f == g
  {
    DecodesExactly(Serialize(f).value, f);
    DecodesExactly(Serialize(g).value, g);
  }
}
