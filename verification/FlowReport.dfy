/** The flow events of a capture, written with the packets' own fields (src/pcap_flow.py:37-117 and 218-222). */
module FlowReport {
  import opened Prelude
  import opened PcapFormat
  import opened Grouping
  import opened FlowTable

  // ---------------------------------------------------------------- conversations

  /** From the same address and port. */
  predicate SameSender(p: Packet, q: Packet) {
    p.segment.srcIp == q.segment.srcIp && p.segment.srcPort == q.segment.srcPort
  }

  /** Between the same two addresses and ports, in the same or in the opposite direction. */
  predicate SameConversation(p: Packet, q: Packet) {
    || (p.segment.srcIp == q.segment.srcIp && p.segment.srcPort == q.segment.srcPort
        && p.segment.dstIp == q.segment.dstIp && p.segment.dstPort == q.segment.dstPort)
    || (p.segment.srcIp == q.segment.dstIp && p.segment.srcPort == q.segment.dstPort
        && p.segment.dstIp == q.segment.srcIp && p.segment.dstPort == q.segment.srcPort)
  }

  lemma KeyIff(p: Packet, q: Packet)
    ensures KeyOf(p) == KeyOf(q) <==> SameConversation(p, q)
  {
    KeyIsUnorderedPair(p, q);
  }

  /** The packets of a packet's conversation, in capture order. */
  function Conversation(ps: seq<Packet>, first: Packet): seq<Packet> {
    if ps == [] then []
    else (if SameConversation(ps[0], first) then [ps[0]] else []) + Conversation(ps[1..], first)
  }

  /** The packets that open a conversation: no earlier packet belongs to it. */
  function Openers(ps: seq<Packet>): seq<Packet> {
    if ps == [] then []
    else
      var (front, last) := (Openers(ps[..|ps| - 1]), ps[|ps| - 1]);
      if exists i :: 0 <= i < |ps| - 1 && SameConversation(ps[i], last) then front else front + [last]
  }

  lemma {:induction false} GroupIs(ps: seq<Packet>, first: Packet)
    ensures Group(ps, KeyOf(first)) == Conversation(ps, first)
  {
    if ps != [] {
      GroupIs(ps[1..], first);
      KeyIff(ps[0], first);
    }
  }

  lemma {:induction false} FirstSeenIs(ps: seq<Packet>)
    ensures |FirstSeen(ps)| == |Openers(ps)|
    ensures forall i :: 0 <= i < |Openers(ps)| ==> FirstSeen(ps)[i] == KeyOf(Openers(ps)[i])
  {
    if ps != [] {
      var n := |ps| - 1;
      FirstSeenIs(ps[..n]);
      KeysIff(ps[..n], FlowOf(), KeyOf(ps[n]));
      assert forall i :: 0 <= i < n ==> ps[..n][i] == ps[i];
      forall i | 0 <= i < n
        ensures KeyOf(ps[i]) == KeyOf(ps[n]) <==> SameConversation(ps[i], ps[n])
      {
        KeyIff(ps[i], ps[n]);
      }
    }
  }

  lemma {:induction false} OpensItself(ps: seq<Packet>, i: nat)
    requires i < |Openers(ps)|
    ensures Conversation(ps, Openers(ps)[i]) != [] && Conversation(ps, Openers(ps)[i])[0] == Openers(ps)[i]
  {
    var n := |ps| - 1;
    var last := ps[n];
    assert ps == ps[..n] + [last];
    if i < |Openers(ps[..n])| {
      OpensItself(ps[..n], i);
      ConversationSnoc(ps[..n], last, Openers(ps)[i]);
    } else {
      ConversationSnoc(ps[..n], last, last);
      NotYetOpen(ps[..n], last);
    }
  }

  lemma {:induction false} ConversationSnoc(ps: seq<Packet>, p: Packet, first: Packet)
    ensures Conversation(ps + [p], first)
         == Conversation(ps, first) + (if SameConversation(p, first) then [p] else [])
  {
    if ps == [] {
      assert ps + [p] == [p];
    } else {
      ConversationSnoc(ps[1..], p, first);
      assert (ps + [p])[0] == ps[0] && (ps + [p])[1..] == ps[1..] + [p];
    }
  }

  lemma {:induction false} NotYetOpen(ps: seq<Packet>, p: Packet)
    requires forall i :: 0 <= i < |ps| ==> !SameConversation(ps[i], p)
    ensures Conversation(ps, p) == []
  {
    if ps != [] {
      NotYetOpen(ps[1..], p);
    }
  }

  // ---------------------------------------------------------------- the counters

  /** Packets and payload bytes of the list sent, or not sent, by the first packet's sender. */
  function PacketsSent(ps: seq<Packet>, first: Packet, sent: bool): nat {
    if ps == [] then 0
    else (if SameSender(ps[0], first) == sent then 1 else 0) + PacketsSent(ps[1..], first, sent)
  }

  function BytesSent(ps: seq<Packet>, first: Packet, sent: bool): nat {
    if ps == [] then 0
    else (if SameSender(ps[0], first) == sent then |ps[0].segment.payload| else 0) + BytesSent(ps[1..], first, sent)
  }

  lemma {:induction false} TotalsAre(ps: seq<Packet>, first: Packet)
    ensures Total(ps, Leaves(Source(first)), Each()) == PacketsSent(ps, first, true)
    ensures Total(ps, Enters(Source(first)), Each()) == PacketsSent(ps, first, false)
    ensures Total(ps, Leaves(Source(first)), Payload()) == BytesSent(ps, first, true)
    ensures Total(ps, Enters(Source(first)), Payload()) == BytesSent(ps, first, false)
  {
    if ps != [] {
      TotalsAre(ps[1..], first);
      TotalCons(ps, Leaves(Source(first)), Each());
      TotalCons(ps, Enters(Source(first)), Each());
      TotalCons(ps, Leaves(Source(first)), Payload());
      TotalCons(ps, Enters(Source(first)), Payload());
    }
  }

  lemma TotalCons(ps: seq<Packet>, counts: Packet -> bool, weight: Packet -> nat)
    requires ps != []
    ensures Total(ps, counts, weight) == (if counts(ps[0]) then weight(ps[0]) else 0) + Total(ps[1..], counts, weight)
  {
    assert ps == [ps[0]] + ps[1..];
    FilterAppend([ps[0]], ps[1..], counts);
    SumAppend(Filter([ps[0]], counts), Filter(ps[1..], counts), weight);
    SumOf([ps[0]], weight);
  }

  lemma SumOf(ps: seq<Packet>, weight: Packet -> nat)
    requires |ps| == 1
    ensures Sum(ps, weight) == weight(ps[0])
  {
    assert ps[..0] == [];
  }

  // ---------------------------------------------------------------- the events

  ghost predicate Latest(ps: seq<Packet>, ts: nat) {
    (forall p <- ps :: p.ts <= ts) && exists p :: p in ps && p.ts == ts
  }

  /** The event of the conversation that the packet opens. */
  ghost predicate Describes(e: FlowEvent, number: nat, first: Packet, ps: seq<Packet>) {
    var talk := Conversation(ps, first);
    && e.eventId == "pcap-flow-" + ThreeDigits(number)
    && e.firstTs == first.ts && Latest(talk, e.lastTs)
    && e.target.ip == first.segment.dstIp && e.target.port == first.segment.dstPort
    && e.packetCount == |talk|
    && e.bytesOut == BytesSent(talk, first, true) && e.bytesIn == BytesSent(talk, first, false)
    && e.durationMs == (e.lastTs - e.firstTs) / 1_000_000
    && (forall f :: f in e.flags <==> exists p :: p in talk && f in p.segment.flags)
  }

  lemma {:induction false} SentOrNot(ps: seq<Packet>, first: Packet)
    ensures PacketsSent(ps, first, true) + PacketsSent(ps, first, false) == |ps|
  {
    if ps != [] {
      SentOrNot(ps[1..], first);
    }
  }

  lemma SummaryIs(talk: seq<Packet>)
    requires talk != []
    ensures var (v, first) := (Summary(talk), talk[0]);
      && v.firstTs == first.ts <= v.lastTs && Latest(talk, v.lastTs)
      && v.target.ip == first.segment.dstIp && v.target.port == first.segment.dstPort
      && v.packetsOut == PacketsSent(talk, first, true) && v.packetsIn == PacketsSent(talk, first, false)
      && v.bytesOut == BytesSent(talk, first, true) && v.bytesIn == BytesSent(talk, first, false)
      && (forall f :: f in v.flags <==> exists p :: p in talk && f in p.segment.flags)
  {
    SummaryCounts(talk);
    SummaryExtent(talk);
    TotalsAre(talk, talk[0]);
    var v := Summary(talk);
    forall f
      ensures Carries(talk, f) <==> exists p :: p in talk && f in p.segment.flags
    {
      if p :| p in talk && f in p.segment.flags {
        var i :| 0 <= i < |talk| && talk[i] == p;
        assert f in talk[i].segment.flags;
      }
    }
  }

  /**
   * The flow events of a capture: one for each packet that opens a conversation, in that order and numbered from 1,
   * with the totals of the conversation's packets, split by who sent them.
   */
  lemma FlowEventsAre(ps: seq<Packet>, events: seq<FlowEvent>)
    requires |events| == |FirstSeen(ps)|
    requires forall i :: 0 <= i < |events| ==> Reports(events[i], ps, FirstSeen(ps), 1, i)
    ensures |events| == |Openers(ps)|
    ensures forall i :: 0 <= i < |events| ==> Describes(events[i], i + 1, Openers(ps)[i], ps)
  {
    FirstSeenIs(ps);
    forall i | 0 <= i < |events|
      ensures Describes(events[i], i + 1, Openers(ps)[i], ps)
    {
      var first := Openers(ps)[i];
      GroupIs(ps, first);
      OpensItself(ps, i);
      SummaryIs(Conversation(ps, first));
      SentOrNot(Conversation(ps, first), first);
      assert Reports(events[i], ps, FirstSeen(ps), 1, i);
    }
  }

  /** Numbers are written with at least three digits. */
  lemma NumbersWritten()
    ensures ThreeDigits(1) == "001" && ThreeDigits(42) == "042" && ThreeDigits(999) == "999"
    ensures ThreeDigits(1000) == "1000"
  {
    DecimalsWritten();
  }

  lemma DecimalsWritten()
    ensures Decimal(1) == "1" && Decimal(42) == "42" && Decimal(999) == "999" && Decimal(1000) == "1000"
  {
  }
}
