/**
 * The packet metadata the switch computes for each received frame: a packed
 * 32-byte flow key made of four 8-byte slabs.
 *   slab0: TTL, protocol, header checksum, source address   (IPv4 bytes 8..15)
 *   slab1: destination address, TCP source and destination port (IPv4 bytes 16..23)
 *   slab2, slab3: the 16-byte TDAQ application header that follows the TCP header
 * The IPv4 header (section 3.1 of RFC 791) is assumed to have no options and
 * to start right after a 14-byte Ethernet header; the TCP data offset is the
 * high nibble of TCP byte 12 (section 3.1 of RFC 793). Fields keep the byte
 * order of the wire; each one is the little-endian load of its bytes.
 */
module FlowKey {
  import opened Bytes

  const EtherHdrLen: nat := 14
  const Ipv4HdrLen: nat := 20
  const TdaqHdrLen: nat := 16
  const KeyLen: nat := 32
  const IpProtoTcp: byte := 6
  /** typeId of a TDAQ "fragment request" message. */
  const FragmentRequestTypeId: u32 := 0x00dc_df20

  /** The flow key, field by field (slab0 .. slab3). */
  datatype Key = Key(
    ttl: byte, proto: byte, checksum: u16, sip: u32,
    dip: u32, sport: u16, dport: u16,
    typeId: u32, transactionId: u32,
    size: u32, eventId: u32)

  /** The packed 32-byte image of a key. */
  function KeyBytes(k: Key): (b: seq<byte>)
    ensures |b| == KeyLen
  {
    [k.ttl, k.proto] + Le16Bytes(k.checksum) + Le32Bytes(k.sip)
    + Le32Bytes(k.dip) + Le16Bytes(k.sport) + Le16Bytes(k.dport)
    + Le32Bytes(k.typeId) + Le32Bytes(k.transactionId)
    + Le32Bytes(k.size) + Le32Bytes(k.eventId)
  }

  /** The key seen through the packed layout of its 32 bytes. */
  function KeyOf(b: seq<byte>): (k: Key)
    requires |b| == KeyLen
    ensures KeyBytes(k) == b
  {
    Le16RoundTrip(b[2..4], 0);
    Le32RoundTrip(b[4..8], 0);
    Le32RoundTrip(b[8..12], 0);
    Le16RoundTrip(b[12..14], 0);
    Le16RoundTrip(b[14..16], 0);
    Le32RoundTrip(b[16..20], 0);
    Le32RoundTrip(b[20..24], 0);
    Le32RoundTrip(b[24..28], 0);
    Le32RoundTrip(b[28..32], 0);
    var k := Key(b[0], b[1], Le16(b[2..4]), Le32(b[4..8]),
                 Le32(b[8..12]), Le16(b[12..14]), Le16(b[14..16]),
                 Le32(b[16..20]), Le32(b[20..24]), Le32(b[24..28]), Le32(b[28..32]));
    assert b == [b[0], b[1]] + b[2..4] + b[4..8] + b[8..12] + b[12..14] + b[14..16]
                + b[16..20] + b[20..24] + b[24..28] + b[28..32];
    k
  }

  /** Reading a key back from its packed image gives the key. */
  lemma {:induction false} KeyRoundTrip(k: Key)
    ensures KeyOf(KeyBytes(k)) == k
  {
    var b := KeyBytes(k);
    Le16RoundTrip([0, 0], k.checksum);
    Le32RoundTrip([0, 0, 0, 0], k.sip);
    Le32RoundTrip([0, 0, 0, 0], k.dip);
    Le16RoundTrip([0, 0], k.sport);
    Le16RoundTrip([0, 0], k.dport);
    Le32RoundTrip([0, 0, 0, 0], k.typeId);
    Le32RoundTrip([0, 0, 0, 0], k.transactionId);
    Le32RoundTrip([0, 0, 0, 0], k.size);
    Le32RoundTrip([0, 0, 0, 0], k.eventId);
    assert b[2..4] == Le16Bytes(k.checksum);
    assert b[4..8] == Le32Bytes(k.sip);
    assert b[8..12] == Le32Bytes(k.dip);
    assert b[12..14] == Le16Bytes(k.sport);
    assert b[14..16] == Le16Bytes(k.dport);
    assert b[16..20] == Le32Bytes(k.typeId);
    assert b[20..24] == Le32Bytes(k.transactionId);
    assert b[24..28] == Le32Bytes(k.size);
    assert b[28..32] == Le32Bytes(k.eventId);
  }

  // Fixed offsets into the frame.
  const IpOff: nat := EtherHdrLen
  const TcpOff: nat := EtherHdrLen + Ipv4HdrLen

  function Proto(frame: seq<byte>): byte { ByteAt(frame, IpOff + 9) }

  /** The IPv4 total length, converted from network order. */
  function TotalLength(frame: seq<byte>): nat { Be16(ByteAt(frame, IpOff + 2), ByteAt(frame, IpOff + 3)) }

  /** The TCP header length in bytes: four times the data-offset nibble. */
  function TcpHdrSize(frame: seq<byte>): (n: nat)
    ensures n % 4 == 0 && n <= 60
  {
    (ByteAt(frame, TcpOff + 12) / 16) * 4
  }

  /** Offset of the TDAQ application header. */
  function AppOffset(frame: seq<byte>): nat { TcpOff + TcpHdrSize(frame) }

  /**
   * The application-header length test as compiled: total_length - 20 -
   * tcp_hdr_size is computed in 64-bit unsigned arithmetic, so a negative
   * difference wraps to a huge value and passes.
   */
  predicate PayloadTestAsWritten(frame: seq<byte>)
  {
    (TotalLength(frame) - Ipv4HdrLen - TcpHdrSize(frame)) % 0x1_0000_0000_0000_0000 >= TdaqHdrLen
  }

  /** The intended test: the datagram holds a whole application header after the TCP header. */
  predicate PayloadTest(frame: seq<byte>)
  {
    TotalLength(frame) >= Ipv4HdrLen + TcpHdrSize(frame) + TdaqHdrLen
  }

  /** slab2 and slab3: zero unless the frame is TCP and the length test passes. */
  function AppSlabs(frame: seq<byte>, test: bool): (b: seq<byte>)
    ensures |b| == TdaqHdrLen
  {
    if Proto(frame) == IpProtoTcp && test then Window(frame, AppOffset(frame), TdaqHdrLen)
    else Zeros(TdaqHdrLen)
  }

  /** The decoder as written in the switch (with the wrapping length test). */
  function DecodeKeyAsWritten(frame: seq<byte>): Key
  {
    KeyOf(Window(frame, IpOff + 8, 16) + AppSlabs(frame, PayloadTestAsWritten(frame)))
  }

  /**
   * The decoder with the intended length test; the rest of the model uses this one.
   * The first two slabs are IPv4 bytes 8..23; the application fields are the 16
   * bytes at 20 + 4 * data_off past the IPv4 header when the frame is TCP and
   * carries them, and zero otherwise.
   */
  function DecodeKey(frame: seq<byte>): (k: Key)
    ensures KeyBytes(k)[..16] == Window(frame, IpOff + 8, 16)
    ensures k.ttl == ByteAt(frame, IpOff + 8) && k.proto == Proto(frame)
    ensures k.sip == Le32(Window(frame, IpOff + 12, 4))
    ensures k.dip == Le32(Window(frame, IpOff + 16, 4))
    ensures k.sport == Le16(Window(frame, TcpOff, 2))
    ensures k.dport == Le16(Window(frame, TcpOff + 2, 2))
    ensures Proto(frame) == IpProtoTcp && PayloadTest(frame) ==>
              KeyBytes(k)[16..] == Window(frame, AppOffset(frame), TdaqHdrLen)
              && k.typeId == Le32(Window(frame, AppOffset(frame), 4))
              && k.eventId == Le32(Window(frame, AppOffset(frame) + 12, 4))
    ensures !(Proto(frame) == IpProtoTcp && PayloadTest(frame)) ==>
              k.typeId == 0 && k.transactionId == 0 && k.size == 0 && k.eventId == 0
  {
    DecodeSlabs(frame, PayloadTest(frame));
    KeyOf(Window(frame, IpOff + 8, 16) + AppSlabs(frame, PayloadTest(frame)))
  }

  /** Where each field of a decoded key comes from, for either length test. */
  lemma DecodeSlabs(frame: seq<byte>, test: bool)
    ensures var k := KeyOf(Window(frame, IpOff + 8, 16) + AppSlabs(frame, test));
      && KeyBytes(k)[..16] == Window(frame, IpOff + 8, 16)
      && k.ttl == ByteAt(frame, IpOff + 8) && k.proto == Proto(frame)
      && k.sip == Le32(Window(frame, IpOff + 12, 4))
      && k.dip == Le32(Window(frame, IpOff + 16, 4))
      && k.sport == Le16(Window(frame, TcpOff, 2))
      && k.dport == Le16(Window(frame, TcpOff + 2, 2))
      && (Proto(frame) == IpProtoTcp && test ==>
            KeyBytes(k)[16..] == Window(frame, AppOffset(frame), TdaqHdrLen)
            && k.typeId == Le32(Window(frame, AppOffset(frame), 4))
            && k.eventId == Le32(Window(frame, AppOffset(frame) + 12, 4)))
      && (!(Proto(frame) == IpProtoTcp && test) ==>
            k.typeId == 0 && k.transactionId == 0 && k.size == 0 && k.eventId == 0)
  {
    var hdr := Window(frame, IpOff + 8, 16);
    var app := AppSlabs(frame, test);
    KeyOfFields(hdr, app);
    assert hdr[4..8] == Window(frame, IpOff + 12, 4);
    assert hdr[8..12] == Window(frame, IpOff + 16, 4);
    assert hdr[12..14] == Window(frame, TcpOff, 2);
    assert hdr[14..16] == Window(frame, TcpOff + 2, 2);
    if Proto(frame) == IpProtoTcp && test {
      assert app[..4] == Window(frame, AppOffset(frame), 4);
      assert app[12..] == Window(frame, AppOffset(frame) + 12, 4);
    } else {
      assert app[..4] == [0, 0, 0, 0] && app[4..8] == [0, 0, 0, 0];
      assert app[8..12] == [0, 0, 0, 0] && app[12..] == [0, 0, 0, 0];
    }
  }

  /** The fields of the key packed from two header slabs and two application slabs. */
  lemma KeyOfFields(hdr: seq<byte>, app: seq<byte>)
    requires |hdr| == 16 && |app| == TdaqHdrLen
    ensures var k := KeyOf(hdr + app);
      && KeyBytes(k)[..16] == hdr && KeyBytes(k)[16..] == app
      && k.ttl == hdr[0] && k.proto == hdr[1]
      && k.sip == Le32(hdr[4..8]) && k.dip == Le32(hdr[8..12])
      && k.sport == Le16(hdr[12..14]) && k.dport == Le16(hdr[14..16])
      && k.typeId == Le32(app[..4]) && k.transactionId == Le32(app[4..8])
      && k.size == Le32(app[8..12]) && k.eventId == Le32(app[12..])
  {
    var slabs := hdr + app;
    assert slabs[..16] == hdr && slabs[16..] == app;
    assert slabs[4..8] == hdr[4..8] && slabs[8..12] == hdr[8..12];
    assert slabs[12..14] == hdr[12..14] && slabs[14..16] == hdr[14..16];
    assert slabs[16..20] == app[..4] && slabs[20..24] == app[4..8];
    assert slabs[24..28] == app[8..12] && slabs[28..32] == app[12..];
  }

  /** Whenever the TCP header fits in the datagram, the two tests, and so the two decoders, agree. */
  lemma AsWrittenAgrees(frame: seq<byte>)
    requires TotalLength(frame) >= Ipv4HdrLen + TcpHdrSize(frame)
    ensures PayloadTestAsWritten(frame) == PayloadTest(frame)
    ensures DecodeKeyAsWritten(frame) == DecodeKey(frame)
  {
  }

  /**
   * With the intended test the application header read lies inside the IPv4
   * datagram, so when the frame holds the whole datagram it is read from the frame.
   */
  lemma AppHeaderInsideDatagram(frame: seq<byte>)
    requires Proto(frame) == IpProtoTcp && PayloadTest(frame)
    ensures AppOffset(frame) + TdaqHdrLen <= IpOff + TotalLength(frame)
    ensures IpOff + TotalLength(frame) <= |frame| ==>
              KeyBytes(DecodeKey(frame))[16..] == frame[AppOffset(frame)..AppOffset(frame) + TdaqHdrLen]
  {
    if IpOff + TotalLength(frame) <= |frame| {
      WindowInside(frame, AppOffset(frame), TdaqHdrLen);
    }
  }

  /**
   * A minimum-size (60-byte) TCP frame whose IPv4 total length, 20, is shorter
   * than its own headers.
   */
  const ShortFrame: seq<byte> :=
    seq<byte>(60, i => if i == IpOff + 3 then 20 else if i == IpOff + 9 then 6
                      else if i == TcpOff + 12 then 0x50 else 0)

  /**
   * As written, the wrapped subtraction lets ShortFrame pass the length test, so
   * the application fields are read from past the end of its datagram (and of the
   * frame itself); the intended test rejects it.
   */
  lemma ShortFramePassesAsWritten()
    ensures Proto(ShortFrame) == IpProtoTcp && TotalLength(ShortFrame) == 20 && TcpHdrSize(ShortFrame) == 20
    ensures PayloadTestAsWritten(ShortFrame) && !PayloadTest(ShortFrame)
    ensures AppOffset(ShortFrame) + TdaqHdrLen > IpOff + TotalLength(ShortFrame)
    ensures AppOffset(ShortFrame) + TdaqHdrLen > |ShortFrame|
  {
    assert ByteAt(ShortFrame, IpOff + 2) == 0 && ByteAt(ShortFrame, IpOff + 3) == 20;
    assert ByteAt(ShortFrame, TcpOff + 12) == 0x50;
  }

  /**
   * The flow key in the default pipeline's metadata. With data flows compiled
   * in it is the full 32-byte key. With them compiled out the key structure
   * holds only slab1 (destination address, TCP source and destination port):
   * an 8-byte key at offset 0.
   */
  datatype DefaultKey = FullKey(key: Key) | Slab1Key(dip: u32, sport: u16, dport: u16)

  /** The packed image of a default-pipeline key: 32 bytes, or the 8 bytes of slab1. */
  function DefaultKeyBytes(k: DefaultKey): (b: seq<byte>)
    ensures |b| == if k.FullKey? then KeyLen else 8
  {
    match k
    case FullKey(key) => KeyBytes(key)
    case Slab1Key(dip, sport, dport) => Le32Bytes(dip) + Le16Bytes(sport) + Le16Bytes(dport)
  }

  /**
   * pkt_metadata_fill of the default pipeline. With data flows compiled in it
   * fills the whole key as DecodeKey does; without them it writes the one slab
   * the key has, IPv4 bytes 16..23, which is slab1 of the full key.
   */
  function DecodeDefaultKey(frame: seq<byte>, dataFlows: bool): (k: DefaultKey)
    ensures k.FullKey? <==> dataFlows
    ensures dataFlows ==> k.key == DecodeKey(frame)
    ensures !dataFlows ==> DefaultKeyBytes(k) == Window(frame, IpOff + 16, 8)
    ensures !dataFlows ==> DefaultKeyBytes(k) == KeyBytes(DecodeKey(frame))[8..16]
  {
    var full := DecodeKey(frame);
    if dataFlows then FullKey(full)
    else
      var k := Slab1Key(full.dip, full.sport, full.dport);
      assert KeyBytes(full)[8..16] == DefaultKeyBytes(k);
      assert KeyBytes(full)[8..16] == Window(frame, IpOff + 16, 8);
      k
  }
}
