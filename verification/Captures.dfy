/** Which frames of a capture become packets, byte by byte, and captures that mix them with other traffic
    (src/pcap_flow.py:131-222). */
module Captures {
  import opened Prelude
  import opened PcapFormat

  // ---------------------------------------------------------------- which frames are read

  /**
   * An IPv4 frame that carries TCP and holds both headers: EtherType 08 00, version nibble 4, protocol byte 6, at least
   * 54 bytes, and at least 20 bytes behind an IP header of the length it states.
   */
  predicate IsTcp(b: Bytes) {
    |b| >= 54 && b[12] == 0x08 && b[13] == 0x00 && 0x40 <= b[14] <= 0x4f && b[23] == 6
    && |b| >= 34 + 4 * (b[14] - 0x40)
  }

  /** The reader takes exactly these frames. */
  lemma ReadIff(b: Bytes)
    ensures ParseFrame(b).Some? <==> IsTcp(b)
  {
    if |b| >= 54 {
      assert b[12..14] == [b[12], b[13]];
      var first: int := b[14];
      assert first == first / 16 * 16 + first % 16;
    }
  }

  /** Traffic of any other kind gives no packet. */
  lemma OthersRefused(b: Bytes)
    ensures |b| < 54 ==> ParseFrame(b) == None
    ensures |b| >= 14 && b[12..14] != [0x08, 0x00] ==> ParseFrame(b) == None
    ensures |b| >= 15 && !(0x40 <= b[14] <= 0x4f) ==> ParseFrame(b) == None
    ensures |b| >= 24 && b[23] != 6 ==> ParseFrame(b) == None
    ensures |b| >= 15 && |b| < 34 + 4 * (b[14] as int - 0x40) ==> ParseFrame(b) == None
  {
    ReadIff(b);
    if |b| >= 14 {
      assert b[12..14] == [b[12], b[13]];
    }
  }

  /** Byte offset of the TCP header. */
  function TcpAt(b: Bytes): nat
    requires IsTcp(b)
  {
    14 + 4 * (b[14] - 0x40)
  }

  /** Number of bytes of the TCP header: four times the upper half of its thirteenth byte. */
  function DataOffset(b: Bytes): nat
    requires IsTcp(b)
  {
    b[TcpAt(b) + 12] as int / 16 * 4
  }

  lemma OffsetByte(hi: Byte, lo: Byte)
    ensures (hi * 256 + lo) / 4096 % 16 == hi / 16 && (hi * 256 + lo) % 512 == hi % 2 * 256 + lo
  {
  }

  /** What the reader takes from such a frame: ports, addresses and flags by their bytes. */
  lemma FieldsRead(b: Bytes)
    requires IsTcp(b)
    ensures ParseFrame(b).Some?
    ensures var (segment, tcp) := (ParseFrame(b).value, TcpAt(b));
      && segment.srcPort == 256 * (b[tcp] as int) + b[tcp + 1]
      && segment.dstPort == 256 * (b[tcp + 2] as int) + b[tcp + 3]
      && segment.srcIp == DottedQuad([b[26], b[27], b[28], b[29]])
      && segment.dstIp == DottedQuad([b[30], b[31], b[32], b[33]])
      && segment.flags == Flags(b[tcp + 12] as int % 2 * 256 + b[tcp + 13])
  {
    var tcp := TcpAt(b);
    ReadIff(b);
    assert b[26..30] == [b[26], b[27], b[28], b[29]] && b[30..34] == [b[30], b[31], b[32], b[33]];
    OffsetByte(b[tcp + 12], b[tcp + 13]);
  }

  /** The payload runs from the end of the TCP header to the end of the IP packet or of the frame. */
  lemma PayloadRead(b: Bytes)
    requires IsTcp(b)
    ensures ParseFrame(b).Some?
    ensures var (payload, start) := (ParseFrame(b).value.payload, TcpAt(b) + DataOffset(b));
      var total := 14 + 256 * (b[16] as int) + b[17];
      var end := if total < |b| then total else |b|;
      && |payload| == (if start < end then end - start else 0)
      && forall k :: 0 <= k < |payload| ==> payload[k] == b[start + k]
  {
    var tcp := TcpAt(b);
    ReadIff(b);
    OffsetByte(b[tcp + 12], b[tcp + 13]);
    assert b[16..18] == [b[16], b[17]];
  }

  /** The bits of the flags byte, lowest first. */
  lemma FlagsAre(value: nat)
    ensures FIN in Flags(value) <==> value % 2 == 1
    ensures SYN in Flags(value) <==> value / 2 % 2 == 1
    ensures RST in Flags(value) <==> value / 4 % 2 == 1
    ensures PSH in Flags(value) <==> value / 8 % 2 == 1
    ensures ACK in Flags(value) <==> value / 16 % 2 == 1
    ensures URG in Flags(value) <==> value / 32 % 2 == 1
    ensures ECE in Flags(value) <==> value / 64 % 2 == 1
    ensures CWR in Flags(value) <==> value / 128 % 2 == 1
  {
  }

  lemma AddressRead()
    ensures DottedQuad([198, 51, 100, 7]) == "198.51.100.7"
  {
    assert Decimal(198) == "198";
    assert Decimal(51) == "51";
    assert Decimal(100) == "100";
    assert Decimal(7) == "7";
    assert Dotted([100, 7]) == "100.7" by {
      assert [100, 7][1..] == [7];
    }
    assert [198, 51, 100, 7][1..] == [51, 100, 7] && [51, 100, 7][1..] == [100, 7];
  }

  // ---------------------------------------------------------------- which files are read

  /** Files too short for a header and files of an unknown kind are errors, and no others. */
  lemma FileErrors(data: Bytes)
    ensures ParseFile(data) == Failed(TooShort) <==> |data| < 24
    ensures ParseFile(data) == Failed(UnsupportedMagic) <==>
      (|data| >= 24 && data[..4] !in [[0xd4, 0xc3, 0xb2, 0xa1], [0xa1, 0xb2, 0xc3, 0xd4],
                                      [0x4d, 0x3c, 0xb2, 0xa1], [0xa1, 0xb2, 0x3c, 0x4d]])
  {
  }

  /** Times of a capture: whole seconds, and the fraction in the unit its magic tells. */
  lemma TimesRead(seconds: nat, fraction: nat, f: Format)
    requires f.resolution == 1_000_000 || f.resolution == 1_000_000_000
    requires fraction < f.resolution
    ensures Stamp(seconds, fraction, f) / 1_000_000_000 == seconds
    ensures Stamp(seconds, fraction, f) % 1_000_000_000 * f.resolution == fraction * 1_000_000_000
  {
    var rest := if f.resolution == 1_000_000 then fraction * 1000 else fraction;
    assert Stamp(seconds, fraction, f) == seconds * 1_000_000_000 + rest && rest < 1_000_000_000;
  }

  // ---------------------------------------------------------------- mixed captures

  /** One captured frame: a TCP segment somebody sent, or anything else on the wire. */
  datatype Entry = Sent(capture: Capture) | Other(record: Record)

  predicate Fits(e: Entry) {
    match e
    case Sent(capture) => Capturable(capture)
    case Other(record) => Writable(record) && !IsTcp(record.frame)
  }

  function RecordOf(e: Entry): (r: Record)
    requires Fits(e)
    ensures Writable(r)
  {
    match e
    case Sent(c) => Record(c.seconds, c.fraction, c.originalLength, PutFrame(c.frame))
    case Other(record) => record
  }

  predicate AllFit(es: seq<Entry>) { es == [] || (Fits(es[0]) && AllFit(es[1..])) }

  function AllRecords(es: seq<Entry>): (rs: seq<Record>)
    requires AllFit(es)
    ensures AllWritable(rs)
  {
    if es == [] then [] else [RecordOf(es[0])] + AllRecords(es[1..])
  }

  /** The sent segments, in order, each with its time. */
  function SentPackets(es: seq<Entry>, f: Format): seq<Packet>
    requires AllFit(es)
  {
    if es == [] then []
    else
      match es[0]
      case Sent(c) => [Packet(Stamp(c.seconds, c.fraction, f), SegmentOf(c.frame))] + SentPackets(es[1..], f)
      case Other(_) => SentPackets(es[1..], f)
  }

  lemma EntryRead(e: Entry)
    requires Fits(e)
    ensures ParseFrame(RecordOf(e).frame) == if e.Sent? then Some(SegmentOf(e.capture.frame)) else None
  {
    match e
    case Sent(c) => FrameRoundTrip(c.frame);
    case Other(record) => ReadIff(record.frame);
  }

  /** What the reader says of each entry's frame. */
  ghost predicate ReadsEntries(read: FrameReader, es: seq<Entry>)
    requires AllFit(es)
  {
    es == []
    || (read(RecordOf(es[0]).frame) == (if es[0].Sent? then Some(SegmentOf(es[0].capture.frame)) else None)
        && ReadsEntries(read, es[1..]))
  }

  lemma {:induction false} ParseFrameReadsEntries(es: seq<Entry>)
    requires AllFit(es)
    ensures ReadsEntries(ParseFrame, es)
  {
    if es != [] {
      EntryRead(es[0]);
      ParseFrameReadsEntries(es[1..]);
    }
  }

  lemma {:induction false} EntriesHold(es: seq<Entry>, f: Format, read: FrameReader)
    requires AllFit(es) && ReadsEntries(read, es)
    ensures PacketsOf(AllRecords(es), f, read) == SentPackets(es, f)
  {
    if es != [] {
      EntriesHold(es[1..], f, read);
      var r, rest := RecordOf(es[0]), AllRecords(es[1..]);
      ConsTail(r, rest);
    }
  }

  /**
   * A capture of TCP segments mixed with any other frames, such as ARP, IPv6, UDP and truncated ones, is read as
   * exactly its TCP segments, in order.
   */
  lemma MixedCapture(f: Format, header: Bytes, es: seq<Entry>)
    requires f.resolution in {MICROSECONDS, NANOSECONDS} && |header| == 20 && AllFit(es)
    ensures ParseFile(PutFile(f, header, AllRecords(es))) == Packets(SentPackets(es, f))
  {
    FileRoundTrip(f, header, AllRecords(es));
    ParseFrameReadsEntries(es);
    EntriesHold(es, f, ParseFrame);
  }
}
