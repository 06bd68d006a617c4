/** The capture file reader (src/pcap_flow.py): libpcap records, Ethernet, IPv4 and TCP headers. */
module PcapFormat {
  import opened Prelude

  type Byte = x: int | 0 <= x < 256
  type Bytes = seq<Byte>

  const U16_LIMIT := 0x1_0000
  const U32_LIMIT := 0x1_0000_0000

  /** A Python slice: bounds past the end are cut, and a start past the stop gives nothing. */
  function Slice(b: Bytes, start: nat, stop: nat): (s: Bytes)
    ensures |s| <= |b|
  {
    var hi := if stop < |b| then stop else |b|;
    if start < hi then b[start..hi] else []
  }

  function BigU16(b: Bytes): nat
    requires |b| == 2
  {
    b[0] as int * 256 + b[1] as int
  }

  function U32(little: bool, b: Bytes): nat
    requires |b| == 4
  {
    var b0: int, b1: int, b2: int, b3: int := b[0], b[1], b[2], b[3];
    if little then b0 + 256 * b1 + 0x1_0000 * b2 + 0x100_0000 * b3 else b3 + 256 * b2 + 0x1_0000 * b1 + 0x100_0000 * b0
  }

  // ---------------------------------------------------------------- reading

  datatype Format = Format(little: bool, resolution: nat)

  const MICROSECONDS := 1_000_000
  const NANOSECONDS := 1_000_000_000

  function PcapFormat(magic: Bytes): Option<Format> {
    if magic == [0xd4, 0xc3, 0xb2, 0xa1] then Some(Format(true, MICROSECONDS))
    else if magic == [0xa1, 0xb2, 0xc3, 0xd4] then Some(Format(false, MICROSECONDS))
    else if magic == [0x4d, 0x3c, 0xb2, 0xa1] then Some(Format(true, NANOSECONDS))
    else if magic == [0xa1, 0xb2, 0x3c, 0x4d] then Some(Format(false, NANOSECONDS))
    else None
  }

  datatype Flag = FIN | SYN | RST | PSH | ACK | URG | ECE | CWR

  function FlagBit(f: Flag): nat {
    match f
    case FIN => 0x01 case SYN => 0x02 case RST => 0x04 case PSH => 0x08
    case ACK => 0x10 case URG => 0x20 case ECE => 0x40 case CWR => 0x80
  }

  predicate HasBit(value: nat, bit: nat)
    requires bit > 0
  {
    value / bit % 2 == 1
  }

  const ALL_FLAGS: set<Flag> := {FIN, SYN, RST, PSH, ACK, URG, ECE, CWR}

  function Flags(value: nat): set<Flag> {
    set f | f in ALL_FLAGS && HasBit(value, FlagBit(f))
  }

  /** Bytes in decimal, separated by dots. */
  function Dotted(b: Bytes): string
    requires b != []
  {
    if |b| == 1 then Decimal(b[0]) else Decimal(b[0]) + "." + Dotted(b[1..])
  }

  function DottedQuad(b: Bytes): string
    requires |b| == 4
  {
    Dotted(b)
  }

  /** The part of one frame that the reader keeps. */
  datatype Segment = Segment(srcIp: string, srcPort: nat, dstIp: string, dstPort: nat, payload: Bytes, flags: set<Flag>)

  /** ts counts nanoseconds. */
  datatype Packet = Packet(ts: nat, segment: Segment)

  /** Ethernet, IPv4 and TCP headers of one frame; None unless it is an IPv4/TCP frame long enough to hold them. */
  function ParseFrame(frame: Bytes): Option<Segment> {
    if |frame| < 54 || BigU16(frame[12..14]) != 0x0800 then None
    else
      var first: int := frame[14];
      var version, ihl := first / 16, first % 16 * 4;
      if version != 4 || |frame| < 14 + ihl + 20 || frame[14 + 9] != 6 then None
      else
        var totalLen := BigU16(frame[16..18]);
        var tcp := 14 + ihl;
        var offsetFlags := BigU16(frame[tcp + 12..tcp + 14]);
        var payloadStart := tcp + offsetFlags / 4096 % 16 * 4;
        Some(Segment(DottedQuad(frame[26..30]), BigU16(frame[tcp..tcp + 2]),
                     DottedQuad(frame[30..34]), BigU16(frame[tcp + 2..tcp + 4]),
                     Slice(frame, payloadStart, 14 + totalLen), Flags(offsetFlags % 512)))
  }

  type FrameReader = Bytes -> Option<Segment>

  function Prepend(segment: Option<Segment>, ts: nat, rest: seq<Packet>): seq<Packet> {
    if segment.Some? then [Packet(ts, segment.value)] + rest else rest
  }

  /** All packets of the record area, in file order; frames the reader refuses are passed over. */
  function ParseRecords(b: Bytes, f: Format, read: FrameReader): seq<Packet>
    decreases |b|
  {
    if |b| < 16 then []
    else
      var length := U32(f.little, b[8..12]);
      Prepend(read(Slice(b, 16, 16 + length)), Timestamp(b, f), ParseRecords(Slice(b, 16 + length, |b|), f, read))
  }

  /** Seconds plus fraction / resolution, in nanoseconds. */
  function Stamp(seconds: nat, fraction: nat, f: Format): nat {
    seconds * NANOSECONDS + (if f.resolution == MICROSECONDS then fraction * 1000 else fraction)
  }

  function Timestamp(b: Bytes, f: Format): nat
    requires |b| >= 16
  {
    Stamp(U32(f.little, b[0..4]), U32(f.little, b[4..8]), f)
  }

  datatype ReadError = TooShort | UnsupportedMagic
  datatype ReadResult = Packets(packets: seq<Packet>) | Failed(error: ReadError)

  function ParseFile(data: Bytes): ReadResult {
    if |data| < 24 then Failed(TooShort)
    else
      match PcapFormat(data[..4])
      case None => Failed(UnsupportedMagic)
      case Some(f) => Packets(ParseRecords(data[24..], f, ParseFrame))
  }

  /** The packets from an offset on. */
  function ParseFrom(data: Bytes, offset: nat, f: Format, read: FrameReader): seq<Packet>
    decreases |data| - offset
  {
    if offset + 16 > |data| then []
    else
      var header := data[offset..offset + 16];
      var length := U32(f.little, header[8..12]);
      Prepend(read(Slice(data, offset + 16, offset + 16 + length)), Timestamp(header, f),
              ParseFrom(data, offset + 16 + length, f, read))
  }

  lemma {:induction false} ParseFromIsRecords(data: Bytes, offset: nat, f: Format, read: FrameReader)
    ensures ParseFrom(data, offset, f, read) == ParseRecords(Slice(data, offset, |data|), f, read)
    decreases |data| - offset
  {
    if offset + 16 <= |data| {
      SliceStep(data, offset, U32(f.little, data[offset..offset + 16][8..12]));
      ParseFromIsRecords(data, offset + 16 + U32(f.little, data[offset..offset + 16][8..12]), f, read);
    }
  }

  /** The packets read so far, and those from the offset on, are all the packets. */
  ghost predicate ReadSoFar(data: Bytes, offset: nat, f: Format, read: FrameReader, packets: seq<Packet>,
                            all: seq<Packet>) {
    packets + ParseFrom(data, offset, f, read) == all
  }

  lemma ReadOneMore(data: Bytes, offset: nat, f: Format, read: FrameReader, packets: seq<Packet>, all: seq<Packet>,
                    ts: nat, next: nat)
    requires offset + 16 <= |data| && ReadSoFar(data, offset, f, read, packets, all)
    requires ts == Timestamp(data[offset..offset + 16], f)
    requires next == offset + 16 + U32(f.little, data[offset..offset + 16][8..12])
    ensures var parsed := read(Slice(data, offset + 16, next));
      && (parsed.Some? ==> ReadSoFar(data, next, f, read, packets + [Packet(ts, parsed.value)], all))
      && (parsed.None? ==> ReadSoFar(data, next, f, read, packets, all))
  {
    var parsed := read(Slice(data, offset + 16, next));
    if parsed.Some? {
      AppendAssociative(packets, [Packet(ts, parsed.value)], ParseFrom(data, next, f, read));
    }
  }

  lemma ReadNothing(data: Bytes, offset: nat, f: Format, read: FrameReader)
    ensures ReadSoFar(data, offset, f, read, [], ParseFrom(data, offset, f, read))
  {
  }

  lemma ReadAll(data: Bytes, offset: nat, f: Format, read: FrameReader, packets: seq<Packet>, all: seq<Packet>)
    requires offset + 16 > |data| && ReadSoFar(data, offset, f, read, packets, all)
    ensures packets == all
  {
  }

  /** The offset loop over the record area: every read is in bounds and the loop ends on arbitrary bytes. */
  method IterRecords(data: Bytes, f: Format, read: FrameReader) returns (packets: seq<Packet>)
    requires |data| >= 24
    ensures packets == ParseFrom(data, 24, f, read)
  {
    var offset := 24;
    packets := [];
    ghost var all := ParseFrom(data, offset, f, read);
    ReadNothing(data, offset, f, read);
    while offset + 16 <= |data|
      invariant offset >= 24
      invariant ReadSoFar(data, offset, f, read, packets, all)
      decreases |data| - offset
    {
      var header := data[offset..offset + 16];
      var length, ts := U32(f.little, header[8..12]), Timestamp(header, f);
      var frame := Slice(data, offset + 16, offset + 16 + length);
      ReadOneMore(data, offset, f, read, packets, all, ts, offset + 16 + length);
      offset := offset + 16 + length;
      var parsed := read(frame);
      if parsed.Some? {
        packets := packets + [Packet(ts, parsed.value)];
      }
    }
    ReadAll(data, offset, f, read, packets, all);
  }

  method IterTcpPackets(data: Bytes) returns (result: ReadResult)
    ensures result == ParseFile(data)
  {
    if |data| < 24 {
      return Failed(TooShort);
    }
    var format := PcapFormat(data[..4]);
    if format.None? {
      return Failed(UnsupportedMagic);
    }
    var packets := IterRecords(data, format.value, ParseFrame);
    ParseFromIsRecords(data, 24, format.value, ParseFrame);
    assert Slice(data, 24, |data|) == data[24..];
    result := Packets(packets);
  }

  /** A slice of a slice. */
  lemma Inner(b: Bytes, lo: nat, hi: nat, i: nat, j: nat)
    requires lo <= hi <= |b| && i <= j <= hi - lo
    ensures b[lo + i..lo + j] == b[lo..hi][i..j]
  {
    var x, y := b[lo + i..lo + j], b[lo..hi][i..j];
    forall k | 0 <= k < j - i
      ensures x[k] == y[k]
    {
      assert x[k] == b[lo + i + k] && y[k] == b[lo..hi][i + k];
    }
  }

  lemma SliceStep(data: Bytes, offset: nat, length: nat)
    requires offset + 16 <= |data|
    ensures var (left, header) := (Slice(data, offset, |data|), data[offset..offset + 16]);
      && |left| >= 16 && left[0..4] == header[0..4] && left[4..8] == header[4..8] && left[8..12] == header[8..12]
      && Slice(data, offset + 16, offset + 16 + length) == Slice(left, 16, 16 + length)
      && Slice(data, offset + 16 + length, |data|) == Slice(left, 16 + length, |left|)
  {
    var left, header := Slice(data, offset, |data|), data[offset..offset + 16];
    assert left == data[offset..];
    Inner(data, offset, |data|, 0, 4);
    Inner(data, offset, offset + 16, 0, 4);
    Inner(data, offset, |data|, 4, 8);
    Inner(data, offset, offset + 16, 4, 8);
    Inner(data, offset, |data|, 8, 12);
    Inner(data, offset, offset + 16, 8, 12);
    if offset + 16 + length < |data| {
      Inner(data, offset, |data|, 16, 16 + length);
    } else {
      assert Slice(left, 16, 16 + length) == left[16..];
    }
  }

  // ---------------------------------------------------------------- writing

  function PutU32(little: bool, n: nat): (b: Bytes)
    requires n < U32_LIMIT
    ensures |b| == 4
  {
    var b0, b1, b2, b3 := n % 256, n / 256 % 256, n / 256 / 256 % 256, n / 256 / 256 / 256;
    if little then [b0, b1, b2, b3] else [b3, b2, b1, b0]
  }

  lemma U32RoundTrip(little: bool, n: nat)
    requires n < U32_LIMIT
    ensures U32(little, PutU32(little, n)) == n
  {
  }

  function PutFormat(f: Format): (b: Bytes)
    requires f.resolution in {MICROSECONDS, NANOSECONDS}
    ensures |b| == 4
  {
    match (f.little, f.resolution == MICROSECONDS)
    case (true, true) => [0xd4, 0xc3, 0xb2, 0xa1]
    case (false, true) => [0xa1, 0xb2, 0xc3, 0xd4]
    case (true, false) => [0x4d, 0x3c, 0xb2, 0xa1]
    case (false, false) => [0xa1, 0xb2, 0x3c, 0x4d]
  }

  /** One captured frame, whatever it holds, with its time in seconds and fractions. */
  datatype Record = Record(seconds: nat, fraction: nat, originalLength: nat, frame: Bytes)

  predicate Writable(r: Record) {
    r.seconds < U32_LIMIT && r.fraction < U32_LIMIT && r.originalLength < U32_LIMIT && |r.frame| < U32_LIMIT
  }

  predicate AllWritable(rs: seq<Record>) { rs == [] || (Writable(rs[0]) && AllWritable(rs[1..])) }

  function PutRecord(r: Record, f: Format): Bytes
    requires Writable(r)
  {
    PutU32(f.little, r.seconds) + PutU32(f.little, r.fraction) + PutU32(f.little, |r.frame|)
      + PutU32(f.little, r.originalLength)
    + r.frame
  }

  function PutRecords(rs: seq<Record>, f: Format): Bytes
    requires AllWritable(rs)
  {
    if rs == [] then [] else PutRecord(rs[0], f) + PutRecords(rs[1..], f)
  }

  /** A capture file: magic, the rest of the 24-byte header (whatever it says), and the records. */
  function PutFile(f: Format, header: Bytes, rs: seq<Record>): Bytes
    requires f.resolution in {MICROSECONDS, NANOSECONDS} && |header| == 20
    requires AllWritable(rs)
  {
    PutFormat(f) + header + PutRecords(rs, f)
  }

  /** What a capture holds: the frames the reader takes, with their times. */
  function PacketsOf(rs: seq<Record>, f: Format, read: FrameReader): seq<Packet>
  {
    if rs == [] then []
    else
      var rest := PacketsOf(rs[1..], f, read);
      match read(rs[0].frame)
      case None => rest
      case Some(segment) =>
        [Packet(Stamp(rs[0].seconds, rs[0].fraction, f), segment)] + rest
  }

  lemma PacketsCons(r: Record, rs: seq<Record>, f: Format, read: FrameReader)
    requires read(r.frame).Some?
    ensures PacketsOf([r] + rs, f, read)
         == [Packet(Stamp(r.seconds, r.fraction, f), read(r.frame).value)] + PacketsOf(rs, f, read)
  {
    ConsTail(r, rs);
  }

  lemma OneRecord(r: Record, f: Format, rest: Bytes)
    requires Writable(r)
    ensures var b := PutRecord(r, f) + rest;
      && |b| >= 16
      && U32(f.little, b[0..4]) == r.seconds && U32(f.little, b[4..8]) == r.fraction
      && U32(f.little, b[8..12]) == |r.frame|
      && Slice(b, 16, 16 + |r.frame|) == r.frame && Slice(b, 16 + |r.frame|, |b|) == rest
  {
    var b := PutRecord(r, f) + rest;
    U32RoundTrip(f.little, r.seconds);
    U32RoundTrip(f.little, r.fraction);
    U32RoundTrip(f.little, |r.frame|);
    assert b[0..4] == PutU32(f.little, r.seconds);
    assert b[4..8] == PutU32(f.little, r.fraction);
    assert b[8..12] == PutU32(f.little, |r.frame|);
  }

  lemma {:induction false} RecordsRoundTrip(rs: seq<Record>, f: Format, read: FrameReader)
    requires AllWritable(rs)
    ensures ParseRecords(PutRecords(rs, f), f, read) == PacketsOf(rs, f, read)
  {
    if rs != [] {
      OneRecord(rs[0], f, PutRecords(rs[1..], f));
      RecordsRoundTrip(rs[1..], f, read);
    }
  }

  /** Reading a written capture gives its packets, in all four byte orders and resolutions. */
  lemma FileRoundTrip(f: Format, header: Bytes, rs: seq<Record>)
    requires f.resolution in {MICROSECONDS, NANOSECONDS} && |header| == 20
    requires AllWritable(rs)
    ensures ParseFile(PutFile(f, header, rs)) == Packets(PacketsOf(rs, f, ParseFrame))
  {
    var data := PutFile(f, header, rs);
    assert data[..4] == PutFormat(f);
    assert data[24..] == PutRecords(rs, f);
    RecordsRoundTrip(rs, f, ParseFrame);
  }

  // ---------------------------------------------------------------- frames

  /** An IPv4/TCP frame with every field a sender may choose; lengths of options are in 32-bit words. */
  datatype Frame = Frame(
    mac: Bytes, tos: Byte, ident: Bytes, src: Bytes, dst: Bytes, ipChecksum: Bytes, ipOptions: Bytes,
    srcPort: nat, dstPort: nat, numbers: Bytes, reserved: nat, flagBits: nat, window: Bytes, tcpOptions: Bytes,
    payload: Bytes, padding: Bytes)

  /** Header lengths of 5 to 15 words each, and a total length that fits its field. */
  predicate Sendable(s: Frame) {
    && |s.mac| == 12 && |s.ident| == 5 && |s.ipChecksum| == 2 && |s.src| == 4 && |s.dst| == 4
    && |s.numbers| == 8 && |s.window| == 6 && s.srcPort < U16_LIMIT && s.dstPort < U16_LIMIT
    && s.reserved < 8 && s.flagBits < 512
    && |s.ipOptions| % 4 == 0 && |s.ipOptions| <= 40 && |s.tcpOptions| % 4 == 0 && |s.tcpOptions| <= 40
    && 40 + |s.ipOptions| + |s.tcpOptions| + |s.payload| < U16_LIMIT
  }

  function IpHeader(s: Frame): (b: Bytes)
    requires Sendable(s)
    ensures |b| == 20
  {
    var total := 40 + |s.ipOptions| + |s.tcpOptions| + |s.payload|;
    [0x40 + 5 + |s.ipOptions| / 4, s.tos, total / 256, total % 256,
     s.ident[0], s.ident[1], s.ident[2], s.ident[3], s.ident[4], 6, s.ipChecksum[0], s.ipChecksum[1],
     s.src[0], s.src[1], s.src[2], s.src[3], s.dst[0], s.dst[1], s.dst[2], s.dst[3]]
  }

  function OffsetFlags(s: Frame): (n: nat)
    requires Sendable(s)
    ensures n < U16_LIMIT
  {
    (5 + |s.tcpOptions| / 4) * 4096 + s.reserved * 512 + s.flagBits
  }

  function TcpHeader(s: Frame): (b: Bytes)
    requires Sendable(s)
    ensures |b| == 20
  {
    var n := s.numbers;
    [s.srcPort / 256, s.srcPort % 256, s.dstPort / 256, s.dstPort % 256,
     n[0], n[1], n[2], n[3], n[4], n[5], n[6], n[7], OffsetFlags(s) / 256, OffsetFlags(s) % 256,
     s.window[0], s.window[1], s.window[2], s.window[3], s.window[4], s.window[5]]
  }

  function PutFrame(s: Frame): Bytes
    requires Sendable(s)
  {
    s.mac + [0x08, 0x00] + IpHeader(s) + s.ipOptions + TcpHeader(s) + s.tcpOptions + s.payload + s.padding
  }

  function SegmentOf(s: Frame): Segment
    requires Sendable(s)
  {
    Segment(DottedQuad(s.src), s.srcPort, DottedQuad(s.dst), s.dstPort, s.payload, Flags(s.flagBits))
  }

  lemma FrameLayout(s: Frame)
    requires Sendable(s)
    ensures var (b, tcp) := (PutFrame(s), 34 + |s.ipOptions|);
      && |b| >= tcp + 20 + |s.tcpOptions| + |s.payload|
      && b[12..14] == [0x08, 0x00] && b[14..34] == IpHeader(s) && b[tcp..tcp + 20] == TcpHeader(s)
      && b[tcp + 20 + |s.tcpOptions|..tcp + 20 + |s.tcpOptions| + |s.payload|] == s.payload
  {
  }

  /** What the IP header of the buffer says is what the frame says. */
  ghost predicate IpAgrees(b: Bytes, s: Frame)
    requires Sendable(s)
  {
    && |b| >= 54 && b[12..14] == [0x08, 0x00] && b[14] == 0x45 + |s.ipOptions| / 4 && b[23] == 6
    && BigU16(b[16..18]) == 40 + |s.ipOptions| + |s.tcpOptions| + |s.payload|
    && b[26..30] == s.src && b[30..34] == s.dst
  }

  /** The same of the TCP header, and the payload lies behind its options. */
  ghost predicate TcpAgrees(b: Bytes, s: Frame, offsetFlags: nat)
    requires Sendable(s)
  {
    var tcp := 34 + |s.ipOptions|;
    && |b| >= tcp + 20
    && BigU16(b[tcp..tcp + 2]) == s.srcPort && BigU16(b[tcp + 2..tcp + 4]) == s.dstPort
    && BigU16(b[tcp + 12..tcp + 14]) == offsetFlags
    && offsetFlags / 4096 % 16 * 4 == 20 + |s.tcpOptions| && offsetFlags % 512 == s.flagBits
    && Slice(b, tcp + 20 + |s.tcpOptions|, tcp + 20 + |s.tcpOptions| + |s.payload|) == s.payload
  }

  lemma IpParts(s: Frame)
    requires Sendable(s)
    ensures var ip := IpHeader(s);
      && ip[0] == 0x45 + |s.ipOptions| / 4 && ip[9] == 6 && ip[12..16] == s.src && ip[16..20] == s.dst
      && BigU16(ip[2..4]) == 40 + |s.ipOptions| + |s.tcpOptions| + |s.payload|
  {
    var ip := IpHeader(s);
    assert ip[2..4] == [ip[2], ip[3]];
  }

  lemma IpFields(s: Frame)
    requires Sendable(s)
    ensures IpAgrees(PutFrame(s), s)
  {
    FrameLayout(s);
    IpParts(s);
    IpCopied(PutFrame(s), IpHeader(s));
  }

  lemma IpCopied(b: Bytes, ip: Bytes)
    requires |b| >= 34 && b[14..34] == ip
    ensures b[14] == ip[0] && b[23] == ip[9]
    ensures b[16..18] == ip[2..4] && b[26..30] == ip[12..16] && b[30..34] == ip[16..20]
  {
    assert b[14] == b[14..34][0] && b[23] == b[14..34][9];
    Inner(b, 14, 34, 2, 4);
    Inner(b, 14, 34, 12, 16);
    Inner(b, 14, 34, 16, 20);
  }

  lemma OffsetFlagsFields(s: Frame)
    requires Sendable(s)
    ensures OffsetFlags(s) / 4096 % 16 * 4 == 20 + |s.tcpOptions| && OffsetFlags(s) % 512 == s.flagBits
  {
  }

  lemma TcpParts(s: Frame)
    requires Sendable(s)
    ensures var tcp := TcpHeader(s);
      BigU16(tcp[0..2]) == s.srcPort && BigU16(tcp[2..4]) == s.dstPort && BigU16(tcp[12..14]) == OffsetFlags(s)
  {
    var tcp := TcpHeader(s);
    assert tcp[0..2] == [tcp[0], tcp[1]] && tcp[2..4] == [tcp[2], tcp[3]] && tcp[12..14] == [tcp[12], tcp[13]];
  }

  lemma TcpFields(s: Frame)
    requires Sendable(s)
    ensures TcpAgrees(PutFrame(s), s, OffsetFlags(s))
  {
    var b, tcp := PutFrame(s), 34 + |s.ipOptions|;
    FrameLayout(s);
    TcpParts(s);
    OffsetFlagsFields(s);
    Inner(b, tcp, tcp + 20, 0, 2);
    Inner(b, tcp, tcp + 20, 2, 4);
    Inner(b, tcp, tcp + 20, 12, 14);
  }

  lemma FirstByte(options: nat)
    requires options % 4 == 0 && options <= 40
    ensures (0x45 + options / 4) / 16 == 4 && (0x45 + options / 4) % 16 * 4 == 20 + options
  {
  }

  lemma ParseHeaders(b: Bytes, tcp: nat, total: nat, offsetFlags: nat)
    requires 34 <= tcp && |b| >= 54 && |b| >= tcp + 20
    requires BigU16(b[12..14]) == 0x0800 && b[14] / 16 == 4 && (b[14] as int) % 16 * 4 == tcp - 14 && b[23] == 6
    requires BigU16(b[16..18]) == total && BigU16(b[tcp + 12..tcp + 14]) == offsetFlags
    ensures ParseFrame(b)
      == Some(Segment(DottedQuad(b[26..30]), BigU16(b[tcp..tcp + 2]), DottedQuad(b[30..34]),
                      BigU16(b[tcp + 2..tcp + 4]), Slice(b, tcp + offsetFlags / 4096 % 16 * 4, 14 + total),
                      Flags(offsetFlags % 512)))
  {
  }

  /** The reader finds the segment in any buffer with those headers. */
  lemma ParseAgrees(b: Bytes, s: Frame, offsetFlags: nat)
    requires Sendable(s) && IpAgrees(b, s) && TcpAgrees(b, s, offsetFlags)
    ensures ParseFrame(b) == Some(SegmentOf(s))
  {
    FirstByte(|s.ipOptions|);
    ParseHeaders(b, 34 + |s.ipOptions|, 40 + |s.ipOptions| + |s.tcpOptions| + |s.payload|, offsetFlags);
  }

  /** Whatever the options, flags, payload and trailing padding, the reader recovers the segment of a sent frame. */
  lemma FrameRoundTrip(s: Frame)
    requires Sendable(s)
    ensures ParseFrame(PutFrame(s)) == Some(SegmentOf(s))
  {
    IpFields(s);
    TcpFields(s);
    ParseAgrees(PutFrame(s), s, OffsetFlags(s));
  }

  /** A frame and the time it was captured. */
  datatype Capture = Capture(seconds: nat, fraction: nat, originalLength: nat, frame: Frame)

  predicate Capturable(c: Capture) {
    && Sendable(c.frame) && c.seconds < U32_LIMIT && c.fraction < U32_LIMIT && c.originalLength < U32_LIMIT
    && |PutFrame(c.frame)| < U32_LIMIT
  }

  predicate AllCapturable(cs: seq<Capture>) { cs == [] || (Capturable(cs[0]) && AllCapturable(cs[1..])) }

  function RecordsOf(cs: seq<Capture>): (rs: seq<Record>)
    requires AllCapturable(cs)
    ensures AllWritable(rs)
  {
    if cs == [] then []
    else [Record(cs[0].seconds, cs[0].fraction, cs[0].originalLength, PutFrame(cs[0].frame))] + RecordsOf(cs[1..])
  }

  function ExpectedPackets(cs: seq<Capture>, f: Format): seq<Packet>
    requires AllCapturable(cs)
  {
    if cs == [] then []
    else
      [Packet(Stamp(cs[0].seconds, cs[0].fraction, f), SegmentOf(cs[0].frame))]
      + ExpectedPackets(cs[1..], f)
  }

  ghost predicate Reads(read: FrameReader, cs: seq<Capture>)
    requires AllCapturable(cs)
  {
    cs == [] || (read(PutFrame(cs[0].frame)) == Some(SegmentOf(cs[0].frame)) && Reads(read, cs[1..]))
  }

  lemma {:induction false} ParseFrameReads(cs: seq<Capture>)
    requires AllCapturable(cs)
    ensures Reads(ParseFrame, cs)
  {
    if cs != [] {
      FrameRoundTrip(cs[0].frame);
      ParseFrameReads(cs[1..]);
    }
  }

  lemma {:induction false} RecordsHoldPackets(cs: seq<Capture>, f: Format, read: FrameReader)
    requires AllCapturable(cs) && Reads(read, cs)
    ensures PacketsOf(RecordsOf(cs), f, read) == ExpectedPackets(cs, f)
  {
    if cs != [] {
      var record := Record(cs[0].seconds, cs[0].fraction, cs[0].originalLength, PutFrame(cs[0].frame));
      RecordsHoldPackets(cs[1..], f, read);
      PacketsCons(record, RecordsOf(cs[1..]), f, read);
    }
  }

  /** Parsing the serialized capture returns exactly the packets that were sent. */
  lemma CaptureRoundTrip(f: Format, header: Bytes, cs: seq<Capture>)
    requires f.resolution in {MICROSECONDS, NANOSECONDS} && |header| == 20
    requires AllCapturable(cs)
    ensures ParseFile(PutFile(f, header, RecordsOf(cs))) == Packets(ExpectedPackets(cs, f))
  {
    FileRoundTrip(f, header, RecordsOf(cs));
    ParseFrameReads(cs);
    RecordsHoldPackets(cs, f, ParseFrame);
  }

  // ---------------------------------------------------------------- addresses

  lemma {:induction false} UpToDot(a: string, b: string, x: string, y: string)
    requires Digits(a) && Digits(b) && a + "." + x == b + "." + y
    ensures a == b && x == y
  {
    var s := a + "." + x;
    if a == "" || b == "" {
      assert s[|a|] == '.' && s[|b|] == '.';
      assert a == b;
      assert x == s[1..] == y;
    } else {
      assert s[0] == a[0] == b[0];
      assert s[1..] == a[1..] + "." + x == b[1..] + "." + y;
      UpToDot(a[1..], b[1..], x, y);
    }
  }

  lemma {:induction false} DottedInjective(a: Bytes, b: Bytes)
    requires |a| == |b| > 0 && Dotted(a) == Dotted(b)
    ensures a == b
  {
    if |a| > 1 {
      UpToDot(Decimal(a[0]), Decimal(b[0]), Dotted(a[1..]), Dotted(b[1..]));
      DottedInjective(a[1..], b[1..]);
    }
    DecimalRoundTrip(a[0]);
    DecimalRoundTrip(b[0]);
  }

  /** Different addresses print differently, so flows of different hosts never merge. */
  lemma DottedQuadInjective(a: Bytes, b: Bytes)
    requires |a| == |b| == 4 && DottedQuad(a) == DottedQuad(b)
    ensures a == b
  {
    DottedInjective(a, b);
  }
}
